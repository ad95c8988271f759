/** Saving and loading the paired session, session.go, on a file system that can lose power.

    A crash may bring back, for each name on its own, any of the entries the directory has had for
    it since it was last synced, and may leave anything at all in a file that was not synced. A
    directory made since its parents were last synced may be lost with all that is in it. A rename
    replaces an entry in one step. */
module Session {
  import opened Wrappers
  import opened Json

  // ---------------------------------------------------------------- the file system

  datatype File = File(content: string, synced: bool, mode: nat)

  type Directory = map<string, nat>

  /** The directory itself: not there, made but not yet durable in its parents, or durable. */
  datatype Home = Missing | Fresh | Durable

  /** `dirs`: the directory's states since its last sync, the present one last. */
  datatype Fs = Fs(dirs: seq<Directory>, files: map<nat, File>, home: Home)

  predicate ValidFs(fs: Fs) {
    && fs.dirs != [] && (fs.home == Missing ==> fs.dirs == [map[]])
    && forall i, name | 0 <= i < |fs.dirs| && name in fs.dirs[i] :: fs.dirs[i][name] in fs.files
  }

  function Present(fs: Fs): Directory
    requires fs.dirs != []
  {
    fs.dirs[|fs.dirs| - 1]
  }

  function ReadFile(fs: Fs, path: string): Option<string>
    requires ValidFs(fs)
  {
    if path in Present(fs) then Some(fs.files[Present(fs)[path]].content) else None
  }

  /** One entry a crash may bring back, and what may then be read through it. */
  predicate EntryGives(fs: Fs, d: Directory, path: string, v: Option<string>)
    requires path in d ==> d[path] in fs.files
  {
    if path !in d then v == None
    else v.Some? && (fs.files[d[path]].synced ==> v.value == fs.files[d[path]].content)
  }

  /** After a crash `path` may read as `v`. */
  ghost predicate MaySurvive(fs: Fs, path: string, v: Option<string>)
    requires ValidFs(fs)
  {
    (fs.home == Fresh && v == None) || exists i | 0 <= i < |fs.dirs| :: EntryGives(fs, fs.dirs[i], path, v)
  }

  /** A crash can bring nothing to `path` that it could not before, except `data`, whole. */
  ghost predicate Safe(before: Fs, fs: Fs, path: string, data: string)
    requires ValidFs(before)
  {
    ValidFs(fs) && forall v :: MaySurvive(fs, path, v) ==> MaySurvive(before, path, v) || v == Some(data)
  }

  /** Nor can it at any moment of the way, and the new file is nobody else's to read. */
  ghost predicate StaysSafe(before: Fs, states: seq<Fs>, path: string, id: nat, data: string)
    requires ValidFs(before)
  {
    forall fs | fs in states :: Safe(before, fs, path, data) && Private(fs, id)
  }

  predicate SameEntry(d: Directory, d': Directory, path: string) {
    if path in d then path in d' && d'[path] == d[path] else path !in d'
  }

  function AfterMkdir(home: Home): Home { if home == Missing then Fresh else home }

  /** `fs` is `before` with more files and more directory states, none of which touches `path`. */
  ghost predicate LeavesAlone(before: Fs, fs: Fs, path: string) {
    && ValidFs(before) && ValidFs(fs)
    && (fs.home == before.home || fs.home == AfterMkdir(before.home))
    && (forall id | id in before.files :: id in fs.files && fs.files[id] == before.files[id])
    && before.dirs <= fs.dirs
    && forall i | |before.dirs| <= i < |fs.dirs| :: SameEntry(Present(before), fs.dirs[i], path)
  }

  /** A crash can bring back the same as before. */
  ghost predicate SameSurvivors(before: Fs, fs: Fs, path: string)
    requires ValidFs(before) && ValidFs(fs)
  {
    forall v :: MaySurvive(fs, path, v) <==> MaySurvive(before, path, v)
  }

  lemma LeftAloneSurvives(before: Fs, fs: Fs, path: string)
    requires LeavesAlone(before, fs, path)
    ensures SameSurvivors(before, fs, path)
    ensures ReadFile(fs, path) == ReadFile(before, path)
  {
    forall v ensures MaySurvive(fs, path, v) <==> MaySurvive(before, path, v) {
      if before.home == Missing {
        assert EntryGives(before, before.dirs[0], path, None);
      }
      if i :| 0 <= i < |fs.dirs| && EntryGives(fs, fs.dirs[i], path, v) {
        if i < |before.dirs| {
          assert EntryGives(before, before.dirs[i], path, v);
        } else {
          assert SameEntry(Present(before), fs.dirs[i], path);
          assert EntryGives(before, before.dirs[|before.dirs| - 1], path, v);
        }
      }
      if i :| 0 <= i < |before.dirs| && EntryGives(before, before.dirs[i], path, v) {
        assert fs.dirs[i] == before.dirs[i];
        assert EntryGives(fs, fs.dirs[i], path, v);
      }
    }
    if |fs.dirs| > |before.dirs| {
      assert SameEntry(Present(before), fs.dirs[|fs.dirs| - 1], path);
    }
  }

  /** Once a synced file takes `path` over, a crash brings back the old content or the new. */
  lemma CommitSurvives(before: Fs, pending: Fs, fs: Fs, path: string, id: nat, data: string)
    requires LeavesAlone(before, pending, path) && ValidFs(fs) && fs.files == pending.files && fs.home == pending.home
    requires fs.dirs == pending.dirs + [Present(fs)] && path in Present(fs) && Present(fs)[path] == id
    requires fs.files[id].synced && fs.files[id].content == data
    ensures Safe(before, fs, path, data) && ReadFile(fs, path) == Some(data)
  {
    LeftAloneSurvives(before, pending, path);
    forall v | MaySurvive(fs, path, v) ensures MaySurvive(before, path, v) || v == Some(data) {
      if i :| 0 <= i < |fs.dirs| && EntryGives(fs, fs.dirs[i], path, v) {
        if i < |pending.dirs| {
          assert EntryGives(pending, pending.dirs[i], path, v);
        }
      }
    }
  }

  /** After a crash `path` can only read as `data`. */
  ghost predicate OnlySurvives(fs: Fs, path: string, data: string)
    requires ValidFs(fs)
  {
    forall v :: MaySurvive(fs, path, v) <==> v == Some(data)
  }

  /** A synced directory with a synced file in it can only bring back that file, exactly if the
      directory cannot itself be lost. */
  lemma DurableSurvives(fs: Fs, path: string, data: string)
    requires ValidFs(fs) && |fs.dirs| == 1 && path in fs.dirs[0]
    requires fs.files[fs.dirs[0][path]].synced && fs.files[fs.dirs[0][path]].content == data
    ensures OnlySurvives(fs, path, data) <==> fs.home == Durable
    ensures MaySurvive(fs, path, None) <==> fs.home == Fresh
  {
    assert EntryGives(fs, fs.dirs[0], path, Some(data));
    assert MaySurvive(fs, path, None) <==> fs.home == Fresh;
    assert fs.home != Missing;
  }

  // ---------------------------------------------------------------- its operations

  class Disk {
    var fs: Fs
    ghost var trace: seq<Fs>  // every state since construction

    ghost predicate Valid() reads this {
      ValidFs(fs) && forall i | 0 <= i < |trace| :: ValidFs(trace[i])
    }

    /** An existing file system, whatever earlier saves have left of it. */
    constructor (fs: Fs)
      requires ValidFs(fs)
      ensures Valid() && this.fs == fs && trace == [fs]
    {
      this.fs := fs;
      trace := [fs];
    }

    method Become(fs': Fs)
      requires Valid() && ValidFs(fs')
      modifies this
      ensures Valid() && fs == fs' && trace == old(trace) + [fs']
    {
      fs := fs';
      trace := trace + [fs'];
    }

    /** Makes the directory, if there is none; its parents are not synced. */
    method MakeDirectory()
      requires Valid()
      modifies this
      ensures Valid() && fs == old(fs).(home := AfterMkdir(old(fs.home)))
      ensures trace == old(trace) + if old(fs.home) == Missing then [fs] else []
    {
      if fs.home == Missing {
        Become(fs.(home := Fresh));
      }
    }

    /** Makes an empty file, readable by its owner only, under a name not in use. */
    method CreateTemp(name: string, id: nat)
      requires Valid() && fs.home != Missing && name !in Present(fs) && id !in fs.files
      modifies this
      ensures Valid() && trace == old(trace) + [fs]
      ensures fs == Fs(old(fs.dirs) + [Present(old(fs))[name := id]], old(fs.files)[id := File("", false, 0x180)], old(fs.home))
    {
      Become(Fs(fs.dirs + [Present(fs)[name := id]], fs.files[id := File("", false, 0x180)], fs.home));
    }

    method Update(id: nat, f: File)
      requires Valid() && id in fs.files
      modifies this
      ensures Valid() && trace == old(trace) + [fs]
      ensures fs == old(fs).(files := old(fs.files)[id := f])
    {
      Become(fs.(files := fs.files[id := f]));
    }

    /** Replaces `to`'s entry with `from`'s, in one step. */
    method Rename(from: string, to: string)
      requires Valid() && fs.home != Missing && from in Present(fs)
      modifies this
      ensures Valid() && trace == old(trace) + [fs]
      ensures fs == old(fs).(dirs := old(fs.dirs) + [Present(old(fs))[to := Present(old(fs))[from]] - {from}])
    {
      var d := Present(fs)[to := Present(fs)[from]] - {from};
      forall name | name in d ensures d[name] in fs.files {
        assert Present(fs)[if name == to then from else name] in fs.files;
      }
      Become(fs.(dirs := fs.dirs + [d]));
    }

    method Remove(name: string)
      requires Valid() && fs.home != Missing
      modifies this
      ensures Valid() && trace == old(trace) + [fs]
      ensures fs == old(fs).(dirs := old(fs.dirs) + [Present(old(fs)) - {name}])
    {
      Become(fs.(dirs := fs.dirs + [Present(fs) - {name}]));
    }

    method SyncDirectory()
      requires Valid() && fs.home != Missing
      modifies this
      ensures Valid() && trace == old(trace) + [fs]
      ensures fs == old(fs).(dirs := [Present(old(fs))])
    {
      Become(fs.(dirs := [Present(fs)]));
    }

    /** Changes the mode, writes, syncs and closes, stopping at the first failure. */
    method FillTemp(id: nat, data: string, o: Outcomes) returns (ok: bool)
      requires Valid() && id in fs.files && fs.files[id] == File("", false, 0x180)
      modifies this
      ensures Valid() && old(trace) <= trace
      ensures ok <==> o.chmodOk && o.writeOk && o.syncOk && o.closeOk
      ensures ok ==> fs == old(fs).(files := old(fs.files)[id := File(data, true, 0x180)])
      ensures TempOnly(old(fs), fs, id)
      ensures forall i | |old(trace)| <= i < |trace| :: TempOnly(old(fs), trace[i], id)
    {
      if !o.chmodOk {
        return false;
      }
      Update(id, fs.files[id].(mode := 0x180));
      var n := if o.writeOk || o.written > |data| then |data| else o.written;
      Update(id, fs.files[id].(content := data[..n]));
      if !o.writeOk {
        return false;
      }
      if !o.syncOk {
        return false;
      }
      Update(id, fs.files[id].(synced := true));
      assert data[..|data|] == data;
      ok := o.closeOk;
    }

    /** Replaces the session file. Whenever the power fails, `path` keeps what it might have held
        before or holds the new session, whole; the new file is never readable by others. An error
        leaves `path` as it was and, if it can be removed, no temporary file. */
    method SaveSession(path: string, tmp: string, id: nat, data: string, o: Outcomes) returns (failed: bool)
      requires Valid() && tmp != path && tmp !in Present(fs) && id !in fs.files
      modifies this
      ensures Valid() && old(trace) <= trace
      ensures StaysSafe(old(fs), trace[|old(trace)|..], path, id, data)
      ensures failed <==> !Succeeds(o)
      ensures !failed ==> Present(fs) == old(Present(fs))[path := id] && ReadFile(fs, path) == Some(data)
      ensures !failed && o.dirOpenOk && o.dirSyncOk ==>
        && (OnlySurvives(fs, path, data) <==> old(fs.home) == Durable)
        && (MaySurvive(fs, path, None) <==> old(fs.home) != Durable)
      ensures failed ==> ReadFile(fs, path) == old(ReadFile(fs, path))
      ensures failed ==> SameSurvivors(old(fs), fs, path)
      ensures failed && (o.removeOk || !o.mkdirOk || !o.createOk) ==> Present(fs) == old(Present(fs))
    {
      if !o.mkdirOk {
        return true;
      }
      ghost var before, known := fs, trace;
      MakeDirectory();
      ghost var made, mark := fs, |trace|;
      LeftAloneSurvives(before, made, path);
      failed := ReplaceFile(path, tmp, id, data, o);
      forall i | |known| <= i < |trace| ensures Safe(before, trace[i], path, data) && Private(trace[i], id) {
        assert i < mark ==> trace[i] == made;
        assert i >= mark ==> Safe(made, trace[i], path, data);
      }
    }

    /** All but the directory: writes the new file beside the old one and renames it. */
    method ReplaceFile(path: string, tmp: string, id: nat, data: string, o: Outcomes) returns (failed: bool)
      requires Valid() && fs.home != Missing && tmp != path && tmp !in Present(fs) && id !in fs.files && o.mkdirOk
      modifies this
      ensures Valid() && old(trace) <= trace
      ensures StaysSafe(old(fs), trace[|old(trace)|..], path, id, data)
      ensures failed <==> !Succeeds(o)
      ensures !failed ==> Present(fs) == old(Present(fs))[path := id] && ReadFile(fs, path) == Some(data)
      ensures !failed && o.dirOpenOk && o.dirSyncOk ==>
        && (OnlySurvives(fs, path, data) <==> old(fs.home) == Durable)
        && (MaySurvive(fs, path, None) <==> old(fs.home) == Fresh)
      ensures failed ==> ReadFile(fs, path) == old(ReadFile(fs, path))
      ensures failed ==> SameSurvivors(old(fs), fs, path)
      ensures failed && (o.removeOk || !o.createOk) ==> Present(fs) == old(Present(fs))
    {
      if !o.createOk {
        return true;
      }
      ghost var before, known := fs, |trace|;
      var ok := Prepare(path, tmp, id, data, o);
      ghost var prepared := |trace|;
      LeftAloneSurvives(before, fs, path);
      failed := !ok || !o.renameOk;
      if !failed {
        Commit(before, path, tmp, id, data, o);
      } else {
        Discard(before, path, tmp, o.removeOk);
        LeftAloneSurvives(before, fs, path);
      }
      assert trace[known..] == trace[known..prepared] + trace[prepared..];
    }

    /** Writes the new file. */
    method Prepare(path: string, tmp: string, id: nat, data: string, o: Outcomes) returns (ok: bool)
      requires Valid() && fs.home != Missing && tmp != path && tmp !in Present(fs) && id !in fs.files
      modifies this
      ensures Valid() && old(trace) <= trace && LeavesAlone(old(fs), fs, path) && fs.home != Missing
      ensures StaysSafe(old(fs), trace[|old(trace)|..], path, id, data)
      ensures Present(fs) == old(Present(fs))[tmp := id] && id in fs.files && Private(fs, id)
      ensures ok <==> o.chmodOk && o.writeOk && o.syncOk && o.closeOk
      ensures ok ==> fs.files[id] == File(data, true, 0x180)
    {
      ghost var before, known := fs, |trace|;
      CreateTemp(tmp, id);
      ghost var created := fs;
      LeftAloneSurvives(before, created, path);
      ok := FillTemp(id, data, o);
      forall i | known <= i < |trace| ensures Safe(before, trace[i], path, data) && Private(trace[i], id) {
        assert i > known ==> TempOnly(created, trace[i], id);
        LeftAloneSurvives(before, trace[i], path);
      }
    }

    /** Clears up after a failure. */
    method Discard(ghost before: Fs, ghost path: string, tmp: string, removeOk: bool)
      requires Valid() && LeavesAlone(before, fs, path) && tmp != path && fs.home != Missing
      requires tmp !in Present(before) && Present(fs) - {tmp} == Present(before)
      modifies this
      ensures Valid() && LeavesAlone(before, fs, path) && fs.files == old(fs.files)
      ensures Present(fs) == if removeOk then Present(before) else old(Present(fs))
      ensures trace == old(trace) + if removeOk then [fs] else []
    {
      if removeOk {
        Remove(tmp);
      }
    }

    /** Puts the finished file in place and makes the change durable, as far as the platform can. */
    method Commit(ghost before: Fs, path: string, tmp: string, ghost id: nat, ghost data: string, o: Outcomes)
      requires Valid() && LeavesAlone(before, fs, path) && tmp != path && fs.home != Missing
      requires Present(fs) == Present(before)[tmp := id] && tmp !in Present(before)
      requires id in fs.files && fs.files[id] == File(data, true, 0x180)
      modifies this
      ensures Valid() && old(trace) <= trace && fs.files == old(fs.files)
      ensures Present(fs) == Present(before)[path := id] && ReadFile(fs, path) == Some(data)
      ensures StaysSafe(before, trace[|old(trace)|..], path, id, data)
      ensures o.dirOpenOk && o.dirSyncOk ==>
        && (OnlySurvives(fs, path, data) <==> old(fs.home) == Durable)
        && (MaySurvive(fs, path, None) <==> old(fs.home) == Fresh)
    {
      ghost var pending := fs;
      Rename(tmp, path);
      assert Present(fs) == Present(before)[path := id];
      CommitSurvives(before, pending, fs, path, id, data);
      if o.dirOpenOk {
        if o.dirSyncOk {
          SyncDirectory();
          DurableSurvives(fs, path, data);
        }
      }
    }
  }

  /** A first save that makes the directory succeeds in every step, and a power failure can still
      take it away. */
  method FirstSaveCanVanish(path: string, tmp: string, data: string) returns (disk: Disk)
    requires tmp != path
    ensures disk.Valid() && ReadFile(disk.fs, path) == Some(data) && MaySurvive(disk.fs, path, None)
  {
    disk := new Disk(Fs([map[]], map[], Missing));
    var failed := disk.SaveSession(path, tmp, 0, data, Outcomes(true, true, true, 0, true, true, true, true, true, true, true));
  }

  /** How the system calls of one save turn out; a failing write has written `written` bytes. */
  datatype Outcomes = Outcomes(
    mkdirOk: bool, createOk: bool, chmodOk: bool, written: nat, writeOk: bool, syncOk: bool, closeOk: bool,
    renameOk: bool, removeOk: bool, dirOpenOk: bool, dirSyncOk: bool)

  /** What comes after the rename cannot fail the save. */
  predicate Succeeds(o: Outcomes) {
    o.mkdirOk && o.createOk && o.chmodOk && o.writeOk && o.syncOk && o.closeOk && o.renameOk
  }

  predicate Private(fs: Fs, id: nat) {
    id in fs.files ==> fs.files[id].mode == 0x180
  }

  ghost predicate TempOnly(created: Fs, fs: Fs, id: nat) {
    && fs.dirs == created.dirs && fs.home == created.home && id in fs.files && Private(fs, id)
    && fs.files == created.files[id := fs.files[id]]
  }

  // ---------------------------------------------------------------- loading

  datatype Session = Session(token: string, secret: string, savedAt: string)

  datatype Loaded = Loaded(session: Session) | NotFound | Malformed | Incomplete

  const TOKEN_FIELD := "session_token"
  const SECRET_FIELD := "session_secret"
  const SAVED_FIELD := "saved_at"

  function Encode(s: Session): string {
    WriteIndented([(TOKEN_FIELD, Text(s.token)), (SECRET_FIELD, Text(s.secret)), (SAVED_FIELD, Text(s.savedAt))])
  }

  /** A string member; a missing one, or null, is the empty string. */
  function TextField(fields: Fields, name: string): Option<string> {
    match Field(fields, name)
    case None => Some("")
    case Some(Null) => Some("")
    case Some(Text(text)) => Some(text)
    case Some(Number(_)) => None
  }

  /** A time, in the text form Go gives it; a missing one, or null, stays unset. */
  function TimeField(fields: Fields, name: string, isTime: string -> bool): Option<string> {
    match Field(fields, name)
    case None => Some("")
    case Some(Null) => Some("")
    case Some(Text(text)) => if isTime(text) then Some(text) else None
    case Some(Number(_)) => None
  }

  /** `isTime` tells the strings that parse as a time. */
  function LoadSession(file: Option<string>, isTime: string -> bool): Loaded {
    match file
    case None => NotFound
    case Some(text) =>
      match ReadObject(text)
      case None => Malformed
      case Some(fields) =>
        match (TextField(fields, TOKEN_FIELD), TextField(fields, SECRET_FIELD), TimeField(fields, SAVED_FIELD, isTime))
        case (Some(token), Some(secret), Some(savedAt)) =>
          if token == "" || secret == "" then Incomplete else Loaded(Session(token, secret, savedAt))
        case _ => Malformed
  }

  /** What loads has both credentials; a missing file is told apart from one that cannot be used. */
  lemma LoadedIsComplete(file: Option<string>, isTime: string -> bool)
    ensures LoadSession(file, isTime).Loaded? ==> LoadSession(file, isTime).session.token != "" && LoadSession(file, isTime).session.secret != ""
    ensures LoadSession(file, isTime) == NotFound <==> file == None
    ensures file.Some? && ReadObject(file.value) == None ==> LoadSession(file, isTime) == Malformed
  {
  }

  lemma ThreeFields(a: string, b: string, c: string, x: Value, y: Value, z: Value)
    requires Bytes(a) && Bytes(b) && Bytes(c) && a != b && a != c && b != c
    requires WritableValue(x) && WritableValue(y) && WritableValue(z)
    ensures var fields := [(a, x), (b, y), (c, z)];
      && ReadObject(WriteIndented(fields)) == Some(fields)
      && Field(fields, a) == Some(x) && Field(fields, b) == Some(y) && Field(fields, c) == Some(z)
  {
    var fields := [(a, x), (b, y), (c, z)];
    assert Writable(fields);
    IndentedRoundTrip(fields);
    var two, one := [(a, x), (b, y)], [(a, x)];
    assert fields[..2] == two && two[..1] == one;
    assert Field(one, a) == Some(x);
    assert Field(two, a) == Some(x) && Field(two, b) == Some(y);
  }

  lemma FieldNames()
    ensures Bytes(TOKEN_FIELD) && Bytes(SECRET_FIELD) && Bytes(SAVED_FIELD)
    ensures TOKEN_FIELD != SECRET_FIELD && TOKEN_FIELD != SAVED_FIELD && SECRET_FIELD != SAVED_FIELD
  {
    assert |TOKEN_FIELD| == 13 && |SECRET_FIELD| == 14 && |SAVED_FIELD| == 8;
  }

  /** A session with both credentials, saved at a time. */
  predicate Complete(s: Session, isTime: string -> bool) {
    s.token != "" && s.secret != "" && Bytes(s.token) && Bytes(s.secret) && Bytes(s.savedAt) && isTime(s.savedAt)
  }

  /** Loading gives back the session that was saved, whatever its strings hold. */
  lemma LoadRoundTrip(s: Session, isTime: string -> bool)
    requires Complete(s, isTime)
    ensures LoadSession(Some(Encode(s)), isTime) == Loaded(s)
  {
    FieldNames();
    ThreeFields(TOKEN_FIELD, SECRET_FIELD, SAVED_FIELD, Text(s.token), Text(s.secret), Text(s.savedAt));
  }

  /** `fs'` is what a crash has made of `fs`. */
  ghost predicate CrashedTo(fs: Fs, fs': Fs)
    requires ValidFs(fs)
  {
    ValidFs(fs') && forall path :: MaySurvive(fs, path, ReadFile(fs', path))
  }

  /** What is loaded then is the new session or something that could have been found before. */
  ghost predicate LoadsOldOrNew(before: Fs, fs': Fs, path: string, s: Session, isTime: string -> bool)
    requires ValidFs(before) && ValidFs(fs')
  {
    LoadSession(ReadFile(fs', path), isTime) == Loaded(s) || MaySurvive(before, path, ReadFile(fs', path))
  }

  /** Whenever the power fails in a safe state, the next start loads the new session or exactly what
      it could have loaded if the power had failed before the save. */
  lemma LoadAfterCrash(before: Fs, fs: Fs, fs': Fs, path: string, s: Session, isTime: string -> bool)
    requires ValidFs(before) && Safe(before, fs, path, Encode(s)) && CrashedTo(fs, fs') && Complete(s, isTime)
    ensures LoadsOldOrNew(before, fs', path, s, isTime)
  {
    LoadRoundTrip(s, isTime);
  }

  /** In particular, if the old session was durable then it or the new one is loaded. */
  lemma OldOrNew(before: Fs, fs: Fs, fs': Fs, path: string, prior: Session, s: Session, isTime: string -> bool)
    requires ValidFs(before) && Safe(before, fs, path, Encode(s)) && CrashedTo(fs, fs')
    requires OnlySurvives(before, path, Encode(prior)) && Complete(prior, isTime) && Complete(s, isTime)
    ensures LoadSession(ReadFile(fs', path), isTime) == Loaded(prior) || LoadSession(ReadFile(fs', path), isTime) == Loaded(s)
  {
    LoadRoundTrip(prior, isTime);
    LoadRoundTrip(s, isTime);
  }

  /** The power may fail in any of these states. */
  ghost predicate SurvivesCrashes(before: Fs, states: seq<Fs>, path: string, s: Session, isTime: string -> bool)
    requires ValidFs(before) && forall fs | fs in states :: ValidFs(fs)
  {
    forall fs, fs' | fs in states && CrashedTo(fs, fs') :: LoadsOldOrNew(before, fs', path, s, isTime)
  }

  lemma SafeSurvivesCrashes(before: Fs, states: seq<Fs>, path: string, id: nat, s: Session, isTime: string -> bool)
    requires ValidFs(before) && StaysSafe(before, states, path, id, Encode(s)) && Complete(s, isTime)
    ensures SurvivesCrashes(before, states, path, s, isTime)
  {
    forall fs, fs' | fs in states && CrashedTo(fs, fs') ensures LoadsOldOrNew(before, fs', path, s, isTime) {
      LoadAfterCrash(before, fs, fs', path, s, isTime);
    }
  }

  /** Saving a session: however the system calls turn out, and at whatever moment the power fails, the
      next start loads that session or what it could have found before. */
  method SaveIsCrashSafe(disk: Disk, path: string, tmp: string, id: nat, s: Session, o: Outcomes, ghost isTime: string -> bool)
    returns (failed: bool)
    requires disk.Valid() && tmp != path && tmp !in Present(disk.fs) && id !in disk.fs.files && Complete(s, isTime)
    modifies disk
    ensures disk.Valid() && old(disk.trace) <= disk.trace
    ensures SurvivesCrashes(old(disk.fs), disk.trace[|old(disk.trace)|..], path, s, isTime)
    ensures !failed ==> LoadSession(ReadFile(disk.fs, path), isTime) == Loaded(s)
    ensures failed ==> ReadFile(disk.fs, path) == old(ReadFile(disk.fs, path))
  {
    ghost var before, known := disk.fs, |disk.trace|;
    failed := disk.SaveSession(path, tmp, id, Encode(s), o);
    SafeSurvivesCrashes(before, disk.trace[known..], path, id, s, isTime);
    LoadRoundTrip(s, isTime);
  }
}
