/**
  The build cache as a protocol of many processes over one directory. Each step of a process is one
  file system operation: create a lock, write a staged file, rename a directory, read one file. A run
  is any sequence of such steps, in which entries, locks and staging directories may also disappear
  (a cleanup), files may be overwritten (damage), and processes may fail or stop anywhere.
 */
module CacheProtocol {

  type Bytes = seq<bv8>
  type Key = nat

  /** The files that an entry can hold. */
  datatype Name = Artifact | Traps | Overflow | Dwarf | Pdb | Profile | Unknown(name: string)

  const MAX_ENTRY_BYTES: nat := 256 * 1024 * 1024
  const MAX_MODE: nat := 511
  const MAX_FILES: nat := 4

  datatype CachedFile = CachedFile(bytes: Bytes, mode: nat)

  datatype Described = Described(size: nat, digest: nat, mode: nat)

  datatype Metadata = Metadata(key: Key, files: map<Name, Described>, messages: seq<string>, lastUsed: nat)

  /** A metadata file that is not there, is cut short or is not ours, or holds a description. */
  datatype MetaFile = Absent | Garbage | Json(metadata: Metadata)

  datatype Entry = Entry(metadata: MetaFile, files: map<Name, Bytes>)

  /** A staging directory: the entry that a store builds in it, or the metadata that a touch writes. */
  datatype Stage = Stage(entry: Entry, metadata: MetaFile)

  datatype FileSystem = FileSystem(entries: map<Key, Entry>, locks: set<Key>, stages: map<nat, Stage>, nextStage: nat)

  const NOTHING := Entry(Absent, map[])

  /** What a store is called with. */
  datatype Job = Job(key: Key, files: map<Name, CachedFile>, messages: seq<string>)

  datatype CachedArtifact = CachedArtifact(files: map<Name, CachedFile>, messages: seq<string>)

  /** What a process goes on with after it has looked an entry up. */
  datatype Then =
    | Answer
    | Begin(job: Job)
    | Replace(job: Job, stage: nat)
    | Settle(job: Job)

  datatype Outcome = Hit(artifact: CachedArtifact) | Miss | Stored(made: bool) | Failure

  datatype Task =
    | Lookup(key: Key, then_: Then)
    | Verify(key: Key, metadata: Metadata, todo: set<Name>, got: map<Name, CachedFile>, remaining: nat, then_: Then)
    | TouchStage(key: Key, metadata: Metadata, artifact: CachedArtifact, then_: Then)
    | TouchWrite(key: Key, metadata: Metadata, artifact: CachedArtifact, then_: Then, stage: nat)
    | TouchRename(key: Key, metadata: Metadata, artifact: CachedArtifact, then_: Then, stage: nat)
    | Lock(job: Job)
    | MakeStage(job: Job)
    | WriteFiles(job: Job, todo: set<Name>, stage: nat)
    | WriteMetadata(job: Job, stage: nat)
    | Check(job: Job, stage: nat)
    | MoveAway(job: Job, stage: nat)
    | Publish(job: Job, stage: nat)
    | Unlock(key: Key, outcome: Outcome)
    | Done(key: Key, outcome: Outcome)

  /** `stores` lists every entry that was ever put in place, and `written` every content of a file. */
  datatype State = State(fs: FileSystem, tasks: map<nat, Task>, stores: seq<Job>, written: set<Bytes>)

  datatype Action =
    | StartLoad(process: nat, key: Key)
    | StartStore(process: nat, job: Job)
    /** One step of a process: which file it takes next, the clock, whether the time of use is due, and
        whether the metadata fits into its limit. */
    | Step(process: nat, pick: Name, now: nat, due: bool, fits: bool)
    | RemoveEntry(key: Key)
    | RemoveLock(key: Key)
    | RemoveStage(stage: nat)
    | Damage(key: Key, name: Name, bytes: Bytes)
    | Fail(process: nat)
    | Stop(process: nat)

  // ----- describing and verifying -----

  function Describe(hash: Bytes -> nat, file: CachedFile): Described {
    Described(|file.bytes|, hash(file.bytes), file.mode)
  }

  function DescribeAll(hash: Bytes -> nat, files: map<Name, CachedFile>): (r: map<Name, Described>)
    ensures r.Keys == files.Keys
  {
    map name | name in files :: Describe(hash, files[name])
  }

  function Contents(files: map<Name, CachedFile>): set<Bytes> {
    set name | name in files :: files[name].bytes
  }

  /** The file `name` of the entry, when it is what the metadata describes. */
  predicate Matches(hash: Bytes -> nat, entry: Entry, fields: Described, name: Name, remaining: nat) {
    && !name.Unknown?
    && fields.size <= remaining
    && name in entry.files
    && |entry.files[name]| == fields.size
    && hash(entry.files[name]) == fields.digest
    && fields.mode <= MAX_MODE
  }

  // ----- one step -----

  function EntryAt(fs: FileSystem, key: Key): Entry {
    if key in fs.entries then fs.entries[key] else NOTHING
  }

  /** After an entry was looked up, with what was found. */
  function Resume(key: Key, found: Outcome, then_: Then): Task {
    match then_
    case Answer => Done(key, found)
    case Begin(job) => if found.Hit? then Unlock(job.key, Stored(false)) else MakeStage(job)
    case Replace(job, stage) => if found.Hit? then Publish(job, stage) else MoveAway(job, stage)
    case Settle(job) => Unlock(job.key, if found.Hit? then Stored(true) else Failure)
  }

  function Set(s: State, process: nat, task: Task): State {
    s.(tasks := s.tasks[process := task])
  }

  /** A process gives up: it releases the lock that it holds. */
  function GiveUp(task: Task): Task {
    match task
    case Lookup(key, Answer) => Done(key, Failure)
    case Verify(key, _, _, _, _, Answer) => Done(key, Failure)
    case TouchStage(key, _, _, Answer) => Done(key, Failure)
    case TouchWrite(key, _, _, Answer, _) => Done(key, Failure)
    case TouchRename(key, _, _, Answer, _) => Done(key, Failure)
    case Lookup(key, _) => Unlock(key, Failure)
    case Verify(key, _, _, _, _, _) => Unlock(key, Failure)
    case TouchStage(key, _, _, _) => Unlock(key, Failure)
    case TouchWrite(key, _, _, _, _) => Unlock(key, Failure)
    case TouchRename(key, _, _, _, _) => Unlock(key, Failure)
    case Lock(job) => Done(job.key, Failure)
    case MakeStage(job) => Unlock(job.key, Failure)
    case WriteFiles(job, _, _) => Unlock(job.key, Failure)
    case WriteMetadata(job, _) => Unlock(job.key, Failure)
    case Check(job, _) => Unlock(job.key, Failure)
    case MoveAway(job, _) => Unlock(job.key, Failure)
    case Publish(job, _) => Unlock(job.key, Failure)
    case Unlock(_, _) => task
    case Done(_, _) => task
  }

  /** A lookup goes on to the files if the metadata can be read and is for the key; else it is a miss. */
  function ReadMetadata(s: State, process: nat, task: Task): State
    requires task.Lookup?
  {
    match EntryAt(s.fs, task.key).metadata
    case Json(m) =>
      if m.key != task.key || Artifact !in m.files
        || |m.files| > MAX_FILES then Set(s, process, Resume(task.key, Miss, task.then_))
      else Set(s, process, Verify(task.key, m, m.files.Keys, map[], MAX_ENTRY_BYTES, task.then_))
    case _ => Set(s, process, Resume(task.key, Miss, task.then_))
  }

  function ReadFile(hash: Bytes -> nat, s: State, process: nat, task: Task, pick: Name, due: bool): State
    requires task.Verify?
  {
    if task.todo == {} then
      var artifact := CachedArtifact(task.got, task.metadata.messages);
      Set(s, process, if due then TouchStage(task.key, task.metadata, artifact, task.then_)
                      else Resume(task.key, Hit(artifact), task.then_))
    else if pick !in task.todo || pick !in task.metadata.files then s
    else
      var entry, fields := EntryAt(s.fs, task.key), task.metadata.files[pick];
      if Matches(hash, entry, fields, pick, task.remaining) then
        Set(s, process, task.(todo := task.todo - {pick},
                              got := task.got[pick := CachedFile(entry.files[pick], fields.mode)],
                              remaining := task.remaining - fields.size))
      else Set(s, process, Resume(task.key, Miss, task.then_))
  }

  /** Writing the time of use: stage the metadata, then rename it over the entry's. */
  function Touch(s: State, process: nat, task: Task, now: nat): State
    requires task.TouchStage? || task.TouchWrite? || task.TouchRename?
  {
    match task
    case TouchStage(key, m, artifact, then_) =>
      var fs := s.fs;
      Set(s.(fs := fs.(stages := fs.stages[fs.nextStage := Stage(NOTHING, Garbage)], nextStage := fs.nextStage + 1)),
          process, TouchWrite(key, m.(lastUsed := now), artifact, then_, fs.nextStage))
    case TouchWrite(key, m, artifact, then_, stage) =>
      if stage !in s.fs.stages then Set(s, process, GiveUp(task))
      else Set(s.(fs := s.fs.(stages := s.fs.stages[stage := s.fs.stages[stage].(metadata := Json(m))])),
               process, TouchRename(key, m, artifact, then_, stage))
    case TouchRename(key, m, artifact, then_, stage) =>
      if stage !in s.fs.stages || key !in s.fs.entries then Set(s, process, GiveUp(task))
      else
        var entry := s.fs.entries[key].(metadata := s.fs.stages[stage].metadata);
        Set(s.(fs := s.fs.(entries := s.fs.entries[key := entry], stages := s.fs.stages - {stage})),
            process, Resume(key, Hit(artifact), then_))
  }

  function Store(hash: Bytes -> nat, s: State, process: nat, task: Task, pick: Name, now: nat, fits: bool): State
    requires task.Lock? || task.MakeStage? || task.WriteFiles? || task.WriteMetadata? || task.Check? || task.MoveAway?
             || task.Publish?
  {
    var fs := s.fs;
    match task
    case Lock(job) =>
      if job.key in fs.locks then Set(s, process, Done(job.key, Stored(false)))
      else Set(s.(fs := fs.(locks := fs.locks + {job.key})), process, Lookup(job.key, Begin(job)))
    case MakeStage(job) =>
      Set(s.(fs := fs.(stages := fs.stages[fs.nextStage := Stage(NOTHING, Absent)], nextStage := fs.nextStage + 1)),
          process, WriteFiles(job, job.files.Keys, fs.nextStage))
    case WriteFiles(job, todo, stage) =>
      if todo == {} then Set(s, process, WriteMetadata(job, stage))
      else if pick !in todo || pick !in job.files then s
      else if pick.Unknown? || stage !in fs.stages then Set(s, process, GiveUp(task))
      else
        var was := fs.stages[stage];
        var entry := was.entry.(files := was.entry.files[pick := job.files[pick].bytes]);
        Set(s.(fs := fs.(stages := fs.stages[stage := was.(entry := entry)])), process,
            WriteFiles(job, todo - {pick}, stage))
    case WriteMetadata(job, stage) =>
      if stage !in fs.stages || !fits then Set(s, process, GiveUp(task))
      else
        var was := fs.stages[stage];
        var m := Metadata(job.key, DescribeAll(hash, job.files), job.messages, now);
        Set(s.(fs := fs.(stages := fs.stages[stage := was.(entry := was.entry.(metadata := Json(m)))])), process,
            Check(job, stage))
    case Check(job, stage) =>
      Set(s, process, if job.key in fs.entries then Lookup(job.key, Replace(job, stage)) else Publish(job, stage))
    case MoveAway(job, stage) =>
      Set(if stage in fs.stages then s.(fs := fs.(entries := fs.entries - {job.key})) else s, process,
          Publish(job, stage))
    case Publish(job, stage) =>
      if stage !in fs.stages || EntryAt(fs, job.key) != NOTHING then Set(s, process, Lookup(job.key, Settle(job)))
      else
        Set(s.(fs := fs.(entries := fs.entries[job.key := fs.stages[stage].entry], stages := fs.stages - {stage}),
               stores := s.stores + [job]),
            process, Unlock(job.key, Stored(true)))
  }

  function Advance(hash: Bytes -> nat, s: State, process: nat, pick: Name, now: nat, due: bool, fits: bool): State
    requires process in s.tasks
  {
    var task := s.tasks[process];
    match task
    case Lookup(_, _) => ReadMetadata(s, process, task)
    case Verify(_, _, _, _, _, _) => ReadFile(hash, s, process, task, pick, due)
    case TouchStage(_, _, _, _) => Touch(s, process, task, now)
    case TouchWrite(_, _, _, _, _) => Touch(s, process, task, now)
    case TouchRename(_, _, _, _, _) => Touch(s, process, task, now)
    case Unlock(key, outcome) => Set(s.(fs := s.fs.(locks := s.fs.locks - {key})), process, Done(key, outcome))
    case Done(_, _) => s
    case _ => Store(hash, s, process, task, pick, now, fits)
  }

  function Perform(hash: Bytes -> nat, s: State, action: Action): State {
    match action
    case StartLoad(process, key) => if process in s.tasks then s else Set(s, process, Lookup(key, Answer))
    case StartStore(process, job) =>
      if process in s.tasks then s else Set(s, process, Lock(job)).(written := s.written + Contents(job.files))
    case Step(process, pick, now, due, fits) =>
      if process in s.tasks then Advance(hash, s, process, pick, now, due, fits) else s
    case RemoveEntry(key) => s.(fs := s.fs.(entries := s.fs.entries - {key}))
    case RemoveLock(key) => s.(fs := s.fs.(locks := s.fs.locks - {key}))
    case RemoveStage(stage) => s.(fs := s.fs.(stages := s.fs.stages - {stage}))
    case Damage(key, name, bytes) =>
      if key !in s.fs.entries then s
      else
        var entry := s.fs.entries[key];
        s.(fs := s.fs.(entries := s.fs.entries[key := entry.(files := entry.files[name := bytes])]),
           written := s.written + {bytes})
    case Fail(process) => if process in s.tasks then Set(s, process, GiveUp(s.tasks[process])) else s
    case Stop(process) => s.(tasks := s.tasks - {process})
  }

  const EMPTY := State(FileSystem(map[], {}, map[], 0), map[], [], {})

  /** The state after a run, from an empty cache. */
  function Run(hash: Bytes -> nat, actions: seq<Action>): State {
    if actions == [] then EMPTY
    else Perform(hash, Run(hash, actions[..|actions| - 1]), actions[|actions| - 1])
  }

  // ----- what every run keeps -----

  /** No two contents that were ever written have the same digest. */
  ghost predicate NoCollision(hash: Bytes -> nat, written: set<Bytes>) {
    forall a, b | a in written && b in written && hash(a) == hash(b) :: a == b
  }

  ghost predicate Describes(hash: Bytes -> nat, m: Metadata, job: Job) {
    m.key == job.key && m.files == DescribeAll(hash, job.files) && m.messages == job.messages
  }

  /** The metadata describes an entry that was put in place for its key. */
  ghost predicate Genuine(hash: Bytes -> nat, stores: seq<Job>, m: Metadata) {
    exists job | job in stores :: Describes(hash, m, job)
  }

  /** The artifact is all that one store of the key was called with. */
  ghost predicate FromOneStore(stores: seq<Job>, key: Key, artifact: CachedArtifact) {
    exists job | job in stores :: job.key == key && artifact == CachedArtifact(job.files, job.messages)
  }

  ghost predicate GenuineFile(hash: Bytes -> nat, stores: seq<Job>, key: Key, file: MetaFile) {
    file.Json? ==> file.metadata.key == key && Genuine(hash, stores, file.metadata)
  }

  /** What has been read so far is what the metadata describes. */
  ghost predicate Verified(
    hash: Bytes -> nat, m: Metadata, todo: set<Name>, got: map<Name, CachedFile>, written: set<Bytes>)
  {
    && got.Keys + todo == m.files.Keys
    && (forall name | name in got ::
        name in m.files && Describe(hash, got[name]) == m.files[name] && got[name].bytes in written)
  }

  ghost predicate ThenOk(written: set<Bytes>, then_: Then) {
    then_.Answer? || Contents(then_.job.files) <= written
  }

  ghost predicate HitOk(hash: Bytes -> nat, s: State, key: Key, artifact: CachedArtifact) {
    NoCollision(hash, s.written) ==> FromOneStore(s.stores, key, artifact)
  }

  function ThenStage(then_: Then): set<nat> {
    if then_.Replace? then {then_.stage} else {}
  }

  /** The staging directories that a task works in. */
  function Stages(task: Task): set<nat> {
    match task
    case Lookup(_, then_) => ThenStage(then_)
    case Verify(_, _, _, _, _, then_) => ThenStage(then_)
    case TouchStage(_, _, _, then_) => ThenStage(then_)
    case TouchWrite(_, _, _, then_, stage) => ThenStage(then_) + {stage}
    case TouchRename(_, _, _, then_, stage) => ThenStage(then_) + {stage}
    case WriteFiles(_, _, stage) => {stage}
    case WriteMetadata(_, stage) => {stage}
    case Check(_, stage) => {stage}
    case MoveAway(_, stage) => {stage}
    case Publish(_, stage) => {stage}
    case _ => {}
  }

  /** A staged entry that only its metadata makes complete, and then describes what the store was called with. */
  ghost predicate Staged(hash: Bytes -> nat, fs: FileSystem, job: Job, stage: nat, complete: bool) {
    stage in fs.stages ==>
      && (complete ==>
           fs.stages[stage].entry.metadata.Json? && Describes(hash, fs.stages[stage].entry.metadata.metadata, job))
      && (!complete ==> fs.stages[stage].entry.metadata == Absent)
  }

  ghost predicate ThenStaged(hash: Bytes -> nat, fs: FileSystem, then_: Then) {
    then_.Replace? ==> Staged(hash, fs, then_.job, then_.stage, true)
  }

  ghost predicate TaskOk(hash: Bytes -> nat, s: State, task: Task) {
    match task
    case Lookup(_, then_) => ThenOk(s.written, then_) && ThenStaged(hash, s.fs, then_)
    case Verify(key, m, todo, got, _, then_) =>
      && ThenOk(s.written, then_) && ThenStaged(hash, s.fs, then_)
      && m.key == key && Genuine(hash, s.stores, m) && Verified(hash, m, todo, got, s.written)
    case TouchStage(key, m, artifact, then_) =>
      && ThenOk(s.written, then_) && ThenStaged(hash, s.fs, then_)
      && m.key == key && Genuine(hash, s.stores, m) && HitOk(hash, s, key, artifact)
    case TouchWrite(key, m, artifact, then_, _) =>
      && ThenOk(s.written, then_) && ThenStaged(hash, s.fs, then_)
      && m.key == key && Genuine(hash, s.stores, m) && HitOk(hash, s, key, artifact)
    case TouchRename(key, m, artifact, then_, stage) =>
      && ThenOk(s.written, then_) && ThenStaged(hash, s.fs, then_)
      && HitOk(hash, s, key, artifact)
      && (stage in s.fs.stages ==> GenuineFile(hash, s.stores, key, s.fs.stages[stage].metadata))
    case Lock(job) => Contents(job.files) <= s.written
    case MakeStage(job) => Contents(job.files) <= s.written
    case WriteFiles(job, _, stage) => Contents(job.files) <= s.written && Staged(hash, s.fs, job, stage, false)
    case WriteMetadata(job, stage) => Contents(job.files) <= s.written && Staged(hash, s.fs, job, stage, false)
    case Check(job, stage) => Contents(job.files) <= s.written && Staged(hash, s.fs, job, stage, true)
    case MoveAway(job, stage) => Contents(job.files) <= s.written && Staged(hash, s.fs, job, stage, true)
    case Publish(job, stage) => Contents(job.files) <= s.written && Staged(hash, s.fs, job, stage, true)
    case Unlock(_, outcome) => !outcome.Hit?
    case Done(key, outcome) => outcome.Hit? ==> HitOk(hash, s, key, outcome.artifact)
  }

  ghost predicate Inv(hash: Bytes -> nat, s: State) {
    && (forall key | key in s.fs.entries :: GenuineFile(hash, s.stores, key, s.fs.entries[key].metadata))
    && (forall key | key in s.fs.entries :: s.fs.entries[key].files.Values <= s.written)
    && (forall stage | stage in s.fs.stages :: s.fs.stages[stage].entry.files.Values <= s.written)
    && (forall job | job in s.stores :: Contents(job.files) <= s.written)
    && (forall p | p in s.tasks :: TaskOk(hash, s, s.tasks[p]))
    && Apart(s)
  }

  /** Each staging directory belongs to one process. */
  ghost predicate Apart(s: State) {
    && (forall stage | stage in s.fs.stages :: stage < s.fs.nextStage)
    && (forall p, stage | p in s.tasks && stage in Stages(s.tasks[p]) :: stage < s.fs.nextStage)
    && (forall p, q | p in s.tasks && q in s.tasks && p != q :: Stages(s.tasks[p]) !! Stages(s.tasks[q]))
  }

  // ----- what a step leaves alone -----

  ghost predicate Grows(s: State, s': State) {
    && (forall job | job in s.stores :: job in s'.stores)
    && s.written <= s'.written
    && s.fs.nextStage <= s'.fs.nextStage
  }

  lemma GenuineGrows(hash: Bytes -> nat, stores: seq<Job>, stores': seq<Job>, m: Metadata)
    requires Genuine(hash, stores, m) && forall job | job in stores :: job in stores'
    ensures Genuine(hash, stores', m)
  {
    var job :| job in stores && Describes(hash, m, job);
    assert job in stores';
  }

  lemma HitGrows(hash: Bytes -> nat, s: State, s': State, key: Key, artifact: CachedArtifact)
    requires HitOk(hash, s, key, artifact) && Grows(s, s')
    ensures HitOk(hash, s', key, artifact)
  {
    if NoCollision(hash, s'.written) {
      assert NoCollision(hash, s.written);
      var job :| job in s.stores && job.key == key && artifact == CachedArtifact(job.files, job.messages);
      assert job in s'.stores;
    }
  }

  /** The staging directory is as it was, or has disappeared. */
  ghost predicate SameStage(s: State, s': State, stage: nat) {
    stage in s'.fs.stages ==> stage in s.fs.stages && s'.fs.stages[stage] == s.fs.stages[stage]
  }

  lemma ThenKeeps(hash: Bytes -> nat, s: State, s': State, then_: Then, stages: set<nat>)
    requires ThenStaged(hash, s.fs, then_) && ThenStage(then_) <= stages
    requires forall stage | stage in stages :: SameStage(s, s', stage)
    ensures ThenStaged(hash, s'.fs, then_)
  {
    if then_.Replace? {
      assert then_.stage in ThenStage(then_);
      assert SameStage(s, s', then_.stage);
    }
  }

  lemma TaskKeeps(hash: Bytes -> nat, s: State, s': State, task: Task)
    requires TaskOk(hash, s, task) && Grows(s, s')
    requires forall stage | stage in Stages(task) :: SameStage(s, s', stage)
    ensures TaskOk(hash, s', task)
  {
    hide Describes, Genuine, HitOk, Verified, DescribeAll;
    match task
    case Lookup(_, then_) => ThenKeeps(hash, s, s', then_, Stages(task));
    case Verify(_, m, todo, got, _, then_) =>
      ThenKeeps(hash, s, s', then_, Stages(task));
      GenuineGrows(hash, s.stores, s'.stores, m);
      VerifiedGrows(hash, m, todo, got, s.written, s'.written);
    case TouchStage(key, m, artifact, then_) =>
      ThenKeeps(hash, s, s', then_, Stages(task));
      GenuineGrows(hash, s.stores, s'.stores, m);
      HitGrows(hash, s, s', key, artifact);
    case TouchWrite(key, m, artifact, then_, _) =>
      ThenKeeps(hash, s, s', then_, Stages(task));
      GenuineGrows(hash, s.stores, s'.stores, m);
      HitGrows(hash, s, s', key, artifact);
    case TouchRename(key, m, artifact, then_, stage) =>
      ThenKeeps(hash, s, s', then_, Stages(task));
      HitGrows(hash, s, s', key, artifact);
      assert SameStage(s, s', stage);
      if stage in s'.fs.stages && s.fs.stages[stage].metadata.Json? {
        GenuineGrows(hash, s.stores, s'.stores, s.fs.stages[stage].metadata.metadata);
      }
    case Done(key, outcome) => if outcome.Hit? { HitGrows(hash, s, s', key, outcome.artifact); }
    case WriteFiles(_, _, stage) => assert SameStage(s, s', stage);
    case WriteMetadata(_, stage) => assert SameStage(s, s', stage);
    case Check(_, stage) => assert SameStage(s, s', stage);
    case MoveAway(_, stage) => assert SameStage(s, s', stage);
    case Publish(_, stage) => assert SameStage(s, s', stage);
    case _ =>
  }

  lemma VerifiedGrows(
    hash: Bytes -> nat, m: Metadata, todo: set<Name>, got: map<Name, CachedFile>, a: set<Bytes>, b: set<Bytes>)
    requires Verified(hash, m, todo, got, a) && a <= b
    ensures Verified(hash, m, todo, got, b)
  {
  }

  /** The stage belongs to `process`, or is new. */
  ghost predicate Owns(s: State, s': State, process: nat, stage: nat) {
    (process in s.tasks && stage in Stages(s.tasks[process])) || s.fs.nextStage <= stage < s'.fs.nextStage
  }

  /** A step of `process` that changes only its own task and staging directories, and some entries. */
  ghost predicate OwnStep(hash: Bytes -> nat, s: State, s': State, process: nat) {
    && Grows(s, s')
    && (forall p | p in s'.tasks && p != process :: p in s.tasks && s'.tasks[p] == s.tasks[p])
    && (process in s'.tasks ==> TaskOk(hash, s', s'.tasks[process]))
    && (process in s'.tasks ==> forall stage | stage in Stages(s'.tasks[process]) :: Owns(s, s', process, stage))
    && (forall stage | stage in s'.fs.stages :: SameStage(s, s', stage) || Owns(s, s', process, stage))
    && (forall stage | stage in s'.fs.stages :: s'.fs.stages[stage].entry.files.Values <= s'.written)
    && (forall key | key in s'.fs.entries ::
          || (key in s.fs.entries && s'.fs.entries[key] == s.fs.entries[key])
          || (GenuineFile(hash, s'.stores, key, s'.fs.entries[key].metadata)
              && s'.fs.entries[key].files.Values <= s'.written))
    && (forall job | job in s'.stores :: Contents(job.files) <= s'.written)
  }

  lemma OthersKeep(hash: Bytes -> nat, s: State, s': State, process: nat, p: nat)
    requires Inv(hash, s) && OwnStep(hash, s, s', process) && p in s'.tasks && p != process
    ensures TaskOk(hash, s', s'.tasks[p])
    ensures forall stage | stage in Stages(s'.tasks[p]) :: stage < s.fs.nextStage && !Owns(s, s', process, stage)
  {
    hide TaskOk, GenuineFile, Contents;
    forall stage | stage in Stages(s.tasks[p])
      ensures SameStage(s, s', stage) && stage < s.fs.nextStage && !Owns(s, s', process, stage)
    {
      if process in s.tasks {
        assert Stages(s.tasks[p]) !! Stages(s.tasks[process]);
      }
    }
    TaskKeeps(hash, s, s', s.tasks[p]);
  }

  lemma Assemble(hash: Bytes -> nat, s: State, s': State, process: nat)
    requires Inv(hash, s) && OwnStep(hash, s, s', process)
    ensures Inv(hash, s')
  {
    EntriesKeep(hash, s, s', process);
    StagesApart(hash, s, s', process);
    hide TaskOk, GenuineFile, Contents, Stages, SameStage;
    forall p | p in s'.tasks ensures TaskOk(hash, s', s'.tasks[p]) {
      if p != process { OthersKeep(hash, s, s', process, p); }
    }
  }

  lemma EntriesKeep(hash: Bytes -> nat, s: State, s': State, process: nat)
    requires Inv(hash, s) && OwnStep(hash, s, s', process)
    ensures forall key | key in s'.fs.entries :: GenuineFile(hash, s'.stores, key, s'.fs.entries[key].metadata)
    ensures forall key | key in s'.fs.entries :: s'.fs.entries[key].files.Values <= s'.written
  {
    hide TaskOk, Stages, SameStage, Genuine, Contents;
    forall key | key in s'.fs.entries
      ensures GenuineFile(hash, s'.stores, key, s'.fs.entries[key].metadata)
              && s'.fs.entries[key].files.Values <= s'.written
    {
      if key in s.fs.entries && s'.fs.entries[key] == s.fs.entries[key] && s.fs.entries[key].metadata.Json? {
        GenuineGrows(hash, s.stores, s'.stores, s.fs.entries[key].metadata.metadata);
      }
    }
  }

  lemma StagesApart(hash: Bytes -> nat, s: State, s': State, process: nat)
    requires Inv(hash, s) && OwnStep(hash, s, s', process)
    ensures Apart(s')
  {
    hide TaskOk, GenuineFile, Contents, Stages;
    forall p | p in s'.tasks && p != process
      ensures forall stage | stage in Stages(s'.tasks[p]) :: stage < s.fs.nextStage && !Owns(s, s', process, stage)
    {
      OthersKeep(hash, s, s', process, p);
    }
    forall p, q | p in s'.tasks && q in s'.tasks && p != q ensures Stages(s'.tasks[p]) !! Stages(s'.tasks[q]) {
      if p != process && q != process {
        assert Stages(s.tasks[p]) !! Stages(s.tasks[q]);
      }
    }
  }

  // ----- the steps of a process -----

  lemma ResumeOk(hash: Bytes -> nat, s: State, key: Key, found: Outcome, then_: Then)
    requires ThenOk(s.written, then_) && ThenStaged(hash, s.fs, then_)
    requires found.Hit? ==> HitOk(hash, s, key, found.artifact)
    ensures TaskOk(hash, s, Resume(key, found, then_)) && Stages(Resume(key, found, then_)) <= ThenStage(then_)
  {
    hide HitOk, DescribeAll, Contents;
  }

  /** What has been verified is what one store was called with, if no digests collide. */
  lemma ReadIsOneStore(hash: Bytes -> nat, s: State, m: Metadata, got: map<Name, CachedFile>)
    requires Genuine(hash, s.stores, m) && Verified(hash, m, {}, got, s.written)
    requires forall job | job in s.stores :: Contents(job.files) <= s.written
    ensures HitOk(hash, s, m.key, CachedArtifact(got, m.messages))
  {
    hide NoCollision, Contents, Verified, Describes;
    if NoCollision(hash, s.written) {
      var job :| job in s.stores && Describes(hash, m, job);
      GotAll(hash, s.written, m, got, job);
    }
  }

  lemma GotAll(hash: Bytes -> nat, written: set<Bytes>, m: Metadata, got: map<Name, CachedFile>, job: Job)
    requires Verified(hash, m, {}, got, written) && Describes(hash, m, job) && NoCollision(hash, written)
             && Contents(job.files) <= written
    ensures got == job.files && m.key == job.key && m.messages == job.messages
  {
    hide NoCollision, Contents;
    assert got.Keys == DescribeAll(hash, job.files).Keys == job.files.Keys;
    forall name | name in got ensures got[name] == job.files[name] {
      assert DescribeAll(hash, job.files)[name] == Describe(hash, job.files[name]);
      SameFile(hash, written, got[name], job.files, name);
    }
  }

  lemma SameFile(hash: Bytes -> nat, written: set<Bytes>, file: CachedFile, files: map<Name, CachedFile>, name: Name)
    requires NoCollision(hash, written) && name in files && file.bytes in written && Contents(files) <= written
    requires Describe(hash, file) == Describe(hash, files[name])
    ensures file == files[name]
  {
    assert files[name].bytes in Contents(files);
  }

  /** A task that only looks. */
  lemma OnlyTask(hash: Bytes -> nat, s: State, process: nat, task: Task)
    requires Inv(hash, s) && process in s.tasks && TaskOk(hash, s, task) && Stages(task) <= Stages(s.tasks[process])
    ensures Inv(hash, Set(s, process, task))
  {
    hide DescribeAll, Contents, GenuineFile;
    var s' := Set(s, process, task);
    TaskSame(hash, s, s', task);
    hide TaskOk, Stages;
    Assemble(hash, s, s', process);
  }

  lemma TaskSame(hash: Bytes -> nat, s: State, s': State, task: Task)
    requires TaskOk(hash, s, task) && s'.fs == s.fs && s'.stores == s.stores && s'.written == s.written
    ensures TaskOk(hash, s', task)
  {
    TaskKeeps(hash, s, s', task);
  }

  lemma ReadMetadataKeeps(hash: Bytes -> nat, s: State, process: nat)
    requires Inv(hash, s) && process in s.tasks && s.tasks[process].Lookup?
    ensures Inv(hash, ReadMetadata(s, process, s.tasks[process]))
  {
    var task := s.tasks[process];
    var entry := EntryAt(s.fs, task.key);
    assert TaskOk(hash, s, task);
    ResumeOk(hash, s, task.key, Miss, task.then_);
    if entry.metadata.Json? {
      var m := entry.metadata.metadata;
      assert GenuineFile(hash, s.stores, task.key, s.fs.entries[task.key].metadata);
      if m.key != task.key || Artifact !in m.files || |m.files| > MAX_FILES {
        OnlyTask(hash, s, process, Resume(task.key, Miss, task.then_));
      } else {
        OnlyTask(hash, s, process, Verify(task.key, m, m.files.Keys, map[], MAX_ENTRY_BYTES, task.then_));
      }
    } else {
      OnlyTask(hash, s, process, Resume(task.key, Miss, task.then_));
    }
  }

  lemma VerifiedMore(
    hash: Bytes -> nat, m: Metadata, todo: set<Name>, got: map<Name, CachedFile>, written: set<Bytes>, pick: Name,
    entry: Entry, remaining: nat)
    requires Verified(hash, m, todo, got, written) && pick in todo && pick in m.files && entry.files.Values <= written
    requires Matches(hash, entry, m.files[pick], pick, remaining)
    ensures Verified(hash, m, todo - {pick}, got[pick := CachedFile(entry.files[pick], m.files[pick].mode)], written)
  {
    assert entry.files[pick] in entry.files.Values;
  }

  lemma ReadAllKeeps(hash: Bytes -> nat, s: State, process: nat, due: bool)
    requires Inv(hash, s) && process in s.tasks && s.tasks[process].Verify? && s.tasks[process].todo == {}
    ensures Inv(hash, ReadFile(hash, s, process, s.tasks[process], Artifact, due))
  {
    hide OwnStep, Apart, NoCollision, Contents;
    var task := s.tasks[process];
    assert TaskOk(hash, s, task);
    var m := task.metadata;
    var artifact := CachedArtifact(task.got, m.messages);
    ReadIsOneStore(hash, s, m, task.got);
    ResumeOk(hash, s, task.key, Hit(artifact), task.then_);
    OnlyTask(hash, s, process,
             if due then TouchStage(task.key, m, artifact, task.then_)
             else Resume(task.key, Hit(artifact), task.then_));
  }

  lemma ReadOneKeeps(hash: Bytes -> nat, s: State, process: nat, pick: Name)
    requires Inv(hash, s) && process in s.tasks && s.tasks[process].Verify?
    requires var task := s.tasks[process];
             && pick in task.todo && pick in task.metadata.files
             && Matches(hash, EntryAt(s.fs, task.key), task.metadata.files[pick], pick, task.remaining)
    ensures var task := s.tasks[process];
            var entry, fields := EntryAt(s.fs, task.key), task.metadata.files[pick];
            Inv(hash, Set(s, process, task.(todo := task.todo - {pick},
                                            got := task.got[pick := CachedFile(entry.files[pick], fields.mode)],
                                            remaining := task.remaining - fields.size)))
  {
    hide OwnStep, Apart, NoCollision, Contents, Genuine, GenuineFile;
    var task := s.tasks[process];
    assert TaskOk(hash, s, task);
    var entry, fields := EntryAt(s.fs, task.key), task.metadata.files[pick];
    assert entry.files.Values <= s.written;
    VerifiedMore(hash, task.metadata, task.todo, task.got, s.written, pick, entry, task.remaining);
    hide Verified;
    OnlyTask(hash, s, process,
             task.(todo := task.todo - {pick}, got := task.got[pick := CachedFile(entry.files[pick], fields.mode)],
                                     remaining := task.remaining - fields.size));
  }

  lemma ReadFileKeeps(hash: Bytes -> nat, s: State, process: nat, pick: Name, due: bool)
    requires Inv(hash, s) && process in s.tasks && s.tasks[process].Verify?
    ensures Inv(hash, ReadFile(hash, s, process, s.tasks[process], pick, due))
  {
    hide OwnStep, Apart;
    var task := s.tasks[process];
    assert TaskOk(hash, s, task);
    var m := task.metadata;
    if task.todo == {} {
      ReadAllKeeps(hash, s, process, due);
    } else if pick in task.todo && pick in m.files {
      var entry, fields := EntryAt(s.fs, task.key), m.files[pick];
      if Matches(hash, entry, fields, pick, task.remaining) {
        ReadOneKeeps(hash, s, process, pick);
      } else {
        ResumeOk(hash, s, task.key, Miss, task.then_);
        OnlyTask(hash, s, process, Resume(task.key, Miss, task.then_));
      }
    }
  }

  lemma GiveUpKeeps(hash: Bytes -> nat, s: State, process: nat)
    requires Inv(hash, s) && process in s.tasks
    ensures Inv(hash, Set(s, process, GiveUp(s.tasks[process])))
  {
    var task := s.tasks[process];
    assert TaskOk(hash, s, task);
    assert TaskOk(hash, s, GiveUp(task)) && Stages(GiveUp(task)) <= Stages(task);
    OnlyTask(hash, s, process, GiveUp(task));
  }

  lemma TouchKeeps(hash: Bytes -> nat, s: State, process: nat, now: nat)
    requires Inv(hash, s) && process in s.tasks
    requires var task := s.tasks[process]; task.TouchStage? || task.TouchWrite? || task.TouchRename?
    ensures Inv(hash, Touch(s, process, s.tasks[process], now))
  {
    match s.tasks[process]
    case TouchStage(_, _, _, _) => TouchStageKeeps(hash, s, process, now);
    case TouchWrite(_, _, _, _, _) => TouchWriteKeeps(hash, s, process, now);
    case TouchRename(_, _, _, _, _) => TouchRenameKeeps(hash, s, process, now);
  }

  lemma TouchStageKeeps(hash: Bytes -> nat, s: State, process: nat, now: nat)
    requires Inv(hash, s) && process in s.tasks && s.tasks[process].TouchStage?
    ensures Inv(hash, Touch(s, process, s.tasks[process], now))
  {
    var task := s.tasks[process];
    var s' := Touch(s, process, task, now);
    assert TaskOk(hash, s, task);
    NewStage(hash, s, s', process, Stage(NOTHING, Garbage));
    ThenKeeps(hash, s, s', task.then_, ThenStage(task.then_));
    GenuineTouched(hash, s.stores, task.metadata, now);
    HitGrows(hash, s, s', task.key, task.artifact);
    hide Genuine, HitOk, DescribeAll, Contents;
    assert TaskOk(hash, s', s'.tasks[process]);
    Assemble(hash, s, s', process);
  }

  lemma GenuineTouched(hash: Bytes -> nat, stores: seq<Job>, m: Metadata, now: nat)
    requires Genuine(hash, stores, m)
    ensures Genuine(hash, stores, m.(lastUsed := now))
  {
    var job :| job in stores && Describes(hash, m, job);
    assert Describes(hash, m.(lastUsed := now), job);
  }

  /** A new staging directory disturbs none of the others. */
  lemma NewStage(hash: Bytes -> nat, s: State, s': State, process: nat, stage: Stage)
    requires Inv(hash, s) && process in s.tasks
    requires s'.fs.stages == s.fs.stages[s.fs.nextStage := stage] && s'.fs.nextStage == s.fs.nextStage + 1
    ensures forall x | x in Stages(s.tasks[process]) :: SameStage(s, s', x)
    ensures forall x | x in s'.fs.stages :: SameStage(s, s', x) || Owns(s, s', process, x)
  {
  }

  lemma TouchWriteKeeps(hash: Bytes -> nat, s: State, process: nat, now: nat)
    requires Inv(hash, s) && process in s.tasks && s.tasks[process].TouchWrite?
    ensures Inv(hash, Touch(s, process, s.tasks[process], now))
  {
    var task := s.tasks[process];
    if task.stage !in s.fs.stages {
      GiveUpKeeps(hash, s, process);
    } else {
      var s' := Touch(s, process, task, now);
      assert TaskOk(hash, s, task);
      hide Genuine, HitOk, DescribeAll, Contents, NoCollision;
      HitGrows(hash, s, s', task.key, task.artifact);
      assert ThenStaged(hash, s'.fs, task.then_);
      assert TaskOk(hash, s', s'.tasks[process]);
      Assemble(hash, s, s', process);
    }
  }

  lemma TouchRenameKeeps(hash: Bytes -> nat, s: State, process: nat, now: nat)
    requires Inv(hash, s) && process in s.tasks && s.tasks[process].TouchRename?
    ensures Inv(hash, Touch(s, process, s.tasks[process], now))
  {
    var task := s.tasks[process];
    if task.stage !in s.fs.stages || task.key !in s.fs.entries {
      GiveUpKeeps(hash, s, process);
    } else {
      var s' := Touch(s, process, task, now);
      assert TaskOk(hash, s, task);
      HitGrows(hash, s, s', task.key, task.artifact);
      ThenKeeps(hash, s, s', task.then_, ThenStage(task.then_));
      ResumeOk(hash, s', task.key, Hit(task.artifact), task.then_);
      hide Genuine, HitOk, DescribeAll, Contents, NoCollision, TaskOk, Resume;
      Assemble(hash, s, s', process);
    }
  }

  lemma StoreKeeps(hash: Bytes -> nat, s: State, process: nat, pick: Name, now: nat, fits: bool)
    requires Inv(hash, s) && process in s.tasks
    requires var task := s.tasks[process];
             task.Lock? || task.MakeStage? || task.WriteFiles? || task.WriteMetadata? || task.Check? || task.MoveAway?
             || task.Publish?
    ensures Inv(hash, Store(hash, s, process, s.tasks[process], pick, now, fits))
  {
    var task := s.tasks[process];
    assert TaskOk(hash, s, task);
    match task
    case Lock(job) => LockKeeps(hash, s, process, pick, now, fits);
    case MakeStage(job) => MakeStageKeeps(hash, s, process, pick, now, fits);
    case WriteFiles(job, todo, stage) => WriteFilesKeeps(hash, s, process, pick, now, fits);
    case WriteMetadata(job, stage) => WriteMetadataKeeps(hash, s, process, pick, now, fits);
    case Check(job, stage) =>
      OnlyTask(hash, s, process,
               if job.key in s.fs.entries then Lookup(job.key, Replace(job, stage)) else Publish(job, stage));
    case MoveAway(job, stage) => MoveAwayKeeps(hash, s, process, pick, now, fits);
    case Publish(job, stage) => PublishKeeps(hash, s, process, pick, now, fits);
  }

  lemma LockKeeps(hash: Bytes -> nat, s: State, process: nat, pick: Name, now: nat, fits: bool)
    requires Inv(hash, s) && process in s.tasks && s.tasks[process].Lock?
    ensures Inv(hash, Store(hash, s, process, s.tasks[process], pick, now, fits))
  {
    var job := s.tasks[process].job;
    assert TaskOk(hash, s, s.tasks[process]);
    if job.key in s.fs.locks {
      OnlyTask(hash, s, process, Done(job.key, Stored(false)));
    } else {
      Assemble(hash, s, Store(hash, s, process, s.tasks[process], pick, now, fits), process);
    }
  }

  lemma MakeStageKeeps(hash: Bytes -> nat, s: State, process: nat, pick: Name, now: nat, fits: bool)
    requires Inv(hash, s) && process in s.tasks && s.tasks[process].MakeStage?
    ensures Inv(hash, Store(hash, s, process, s.tasks[process], pick, now, fits))
  {
    var s' := Store(hash, s, process, s.tasks[process], pick, now, fits);
    assert TaskOk(hash, s, s.tasks[process]);
    NewStage(hash, s, s', process, Stage(NOTHING, Absent));
    hide DescribeAll, Contents, NoCollision, Genuine, GenuineFile;
    Assemble(hash, s, s', process);
  }

  lemma WriteFilesKeeps(hash: Bytes -> nat, s: State, process: nat, pick: Name, now: nat, fits: bool)
    requires Inv(hash, s) && process in s.tasks && s.tasks[process].WriteFiles?
    ensures Inv(hash, Store(hash, s, process, s.tasks[process], pick, now, fits))
  {
    var task := s.tasks[process];
    var job, stage := task.job, task.stage;
    assert TaskOk(hash, s, task);
    if task.todo == {} {
      OnlyTask(hash, s, process, WriteMetadata(job, stage));
    } else if pick in task.todo && pick in job.files {
      if pick.Unknown? || stage !in s.fs.stages {
        GiveUpKeeps(hash, s, process);
      } else {
        var s' := Store(hash, s, process, task, pick, now, fits);
        assert job.files[pick].bytes in Contents(job.files);
        ValuesMore(s.fs.stages[stage].entry.files, pick, job.files[pick].bytes, s.written);
        hide DescribeAll, Contents, NoCollision, Genuine, GenuineFile;
        assert TaskOk(hash, s', s'.tasks[process]);
        Assemble(hash, s, s', process);
      }
    }
  }

  lemma ValuesMore(files: map<Name, Bytes>, name: Name, bytes: Bytes, written: set<Bytes>)
    requires files.Values <= written && bytes in written
    ensures files[name := bytes].Values <= written
  {
  }

  lemma WriteMetadataKeeps(hash: Bytes -> nat, s: State, process: nat, pick: Name, now: nat, fits: bool)
    requires Inv(hash, s) && process in s.tasks && s.tasks[process].WriteMetadata?
    ensures Inv(hash, Store(hash, s, process, s.tasks[process], pick, now, fits))
  {
    var task := s.tasks[process];
    assert TaskOk(hash, s, task);
    if task.stage !in s.fs.stages || !fits {
      GiveUpKeeps(hash, s, process);
    } else {
      hide DescribeAll, Contents, NoCollision, Genuine, GenuineFile;
      var s' := Store(hash, s, process, task, pick, now, fits);
      assert TaskOk(hash, s', s'.tasks[process]);
      Assemble(hash, s, s', process);
    }
  }

  lemma MoveAwayKeeps(hash: Bytes -> nat, s: State, process: nat, pick: Name, now: nat, fits: bool)
    requires Inv(hash, s) && process in s.tasks && s.tasks[process].MoveAway?
    ensures Inv(hash, Store(hash, s, process, s.tasks[process], pick, now, fits))
  {
    assert TaskOk(hash, s, s.tasks[process]);
    hide DescribeAll, Contents, NoCollision, Genuine, GenuineFile;
    Assemble(hash, s, Store(hash, s, process, s.tasks[process], pick, now, fits), process);
  }

  lemma PublishKeeps(hash: Bytes -> nat, s: State, process: nat, pick: Name, now: nat, fits: bool)
    requires Inv(hash, s) && process in s.tasks && s.tasks[process].Publish?
    ensures Inv(hash, Store(hash, s, process, s.tasks[process], pick, now, fits))
  {
    var task := s.tasks[process];
    var job, stage := task.job, task.stage;
    assert TaskOk(hash, s, task);
    if stage !in s.fs.stages || EntryAt(s.fs, job.key) != NOTHING {
      OnlyTask(hash, s, process, Lookup(job.key, Settle(job)));
    } else {
      PlacedKeeps(hash, s, process, job, stage, Store(hash, s, process, task, pick, now, fits));
    }
  }

  lemma PlacedKeeps(hash: Bytes -> nat, s: State, process: nat, job: Job, stage: nat, s': State)
    requires Inv(hash, s) && process in s.tasks && s.tasks[process] == Publish(job, stage) && stage in s.fs.stages
    requires s' == Set(s.(fs :=
                          s.fs.(entries := s.fs.entries[job.key := s.fs.stages[stage].entry],
                                stages := s.fs.stages - {stage}),
                          stores := s.stores + [job]), process, Unlock(job.key, Stored(true)))
    ensures Inv(hash, s')
  {
    hide DescribeAll, Contents, NoCollision, GenuineFile, Apart;
    assert TaskOk(hash, s, s.tasks[process]);
    var m := s.fs.stages[stage].entry.metadata;
    assert job in s'.stores;
    PlacedGenuine(hash, s'.stores, job, m);
    assert forall j | j in s'.stores :: j in s.stores || j == job;
    hide Inv, Genuine;
    PlacedStep(hash, s, process, job, stage, s');
    Assemble(hash, s, s', process);
  }

  lemma PlacedGenuine(hash: Bytes -> nat, stores: seq<Job>, job: Job, m: MetaFile)
    requires job in stores && m.Json? && Describes(hash, m.metadata, job)
    ensures GenuineFile(hash, stores, job.key, m)
  {
  }

  lemma PlacedStep(hash: Bytes -> nat, s: State, process: nat, job: Job, stage: nat, s': State)
    requires Inv(hash, s) && process in s.tasks && s.tasks[process] == Publish(job, stage) && stage in s.fs.stages
    requires s' == Set(s.(fs :=
                          s.fs.(entries := s.fs.entries[job.key := s.fs.stages[stage].entry],
                                stages := s.fs.stages - {stage}),
                          stores := s.stores + [job]), process, Unlock(job.key, Stored(true)))
    requires GenuineFile(hash, s'.stores, job.key, s.fs.stages[stage].entry.metadata)
    requires forall j | j in s'.stores :: j in s.stores || j == job
    ensures OwnStep(hash, s, s', process)
  {
    hide DescribeAll, Contents, NoCollision, GenuineFile, Apart;
    assert TaskOk(hash, s, s.tasks[process]);
    assert forall x | x in s'.fs.stages :: SameStage(s, s', x);
    assert forall j | j in s.stores :: j in s'.stores;
  }

  // ----- every run -----

  lemma AdvanceKeeps(hash: Bytes -> nat, s: State, process: nat, pick: Name, now: nat, due: bool, fits: bool)
    requires Inv(hash, s) && process in s.tasks
    ensures Inv(hash, Advance(hash, s, process, pick, now, due, fits))
  {
    hide Inv;
    match s.tasks[process]
    case Lookup(_, _) => ReadMetadataKeeps(hash, s, process);
    case Verify(_, _, _, _, _, _) => ReadFileKeeps(hash, s, process, pick, due);
    case TouchStage(_, _, _, _) => TouchKeeps(hash, s, process, now);
    case TouchWrite(_, _, _, _, _) => TouchKeeps(hash, s, process, now);
    case TouchRename(_, _, _, _, _) => TouchKeeps(hash, s, process, now);
    case Unlock(_, _) => UnlockKeeps(hash, s, process);
    case Done(_, _) =>
    case _ => StoreKeeps(hash, s, process, pick, now, fits);
  }

  lemma UnlockKeeps(hash: Bytes -> nat, s: State, process: nat)
    requires Inv(hash, s) && process in s.tasks && s.tasks[process].Unlock?
    ensures Inv(hash, Advance(hash, s, process, Artifact, 0, false, false))
  {
    assert TaskOk(hash, s, s.tasks[process]);
    hide DescribeAll, Contents, NoCollision, Genuine, GenuineFile;
    Assemble(hash, s, Advance(hash, s, process, Artifact, 0, false, false), process);
  }

  lemma PerformKeeps(hash: Bytes -> nat, s: State, action: Action)
    requires Inv(hash, s)
    ensures Inv(hash, Perform(hash, s, action))
  {
    var s' := Perform(hash, s, action);
    match action
    case Step(process, pick, now, due, fits) =>
      if process in s.tasks { AdvanceKeeps(hash, s, process, pick, now, due, fits); }
    case Fail(process) => if process in s.tasks { GiveUpKeeps(hash, s, process); }
    case _ => OtherKeeps(hash, s, action);
  }

  /** A process starts or stops. */
  lemma StartKeeps(hash: Bytes -> nat, s: State, action: Action, process: nat)
    requires Inv(hash, s)
    requires match action
             case StartLoad(p, _) => p == process && process !in s.tasks
             case StartStore(p, _) => p == process && process !in s.tasks
             case Stop(p) => p == process
             case _ => false
    ensures Inv(hash, Perform(hash, s, action))
  {
    hide Genuine, GenuineFile, NoCollision;
    Assemble(hash, s, Perform(hash, s, action), process);
  }

  /** What happens to the cache outside of its processes' steps. */
  lemma OtherKeeps(hash: Bytes -> nat, s: State, action: Action)
    requires Inv(hash, s) && !action.Step? && !action.Fail?
    ensures Inv(hash, Perform(hash, s, action))
  {
    hide Inv;
    var s' := Perform(hash, s, action);
    match action
    case StartLoad(process, key) => if process !in s.tasks { StartKeeps(hash, s, action, process); }
    case StartStore(process, job) => if process !in s.tasks { StartKeeps(hash, s, action, process); }
    case Stop(process) => StartKeeps(hash, s, action, process);
    case Damage(key, name, bytes) => DamageKeeps(hash, s, key, name, bytes);
    case RemoveEntry(_) => Outside(hash, s, s');
    case RemoveLock(_) => Outside(hash, s, s');
    case RemoveStage(_) => Outside(hash, s, s');
  }

  /** Things only disappear. */
  lemma Outside(hash: Bytes -> nat, s: State, s': State)
    requires Inv(hash, s) && s'.tasks == s.tasks && s'.stores == s.stores && s'.written == s.written
    requires s'.fs.nextStage == s.fs.nextStage
    requires forall key | key in s'.fs.entries :: key in s.fs.entries && s'.fs.entries[key] == s.fs.entries[key]
    requires forall stage | stage in s'.fs.stages :: stage in s.fs.stages && s'.fs.stages[stage] == s.fs.stages[stage]
    ensures Inv(hash, s')
  {
    hide TaskOk, GenuineFile, Contents;
    forall p | p in s'.tasks ensures TaskOk(hash, s', s'.tasks[p]) {
      TaskKeeps(hash, s, s', s.tasks[p]);
    }
  }

  lemma DamageKeeps(hash: Bytes -> nat, s: State, key: Key, name: Name, bytes: Bytes)
    requires Inv(hash, s)
    ensures Inv(hash, Perform(hash, s, Damage(key, name, bytes)))
  {
    if key in s.fs.entries {
      var s' := Perform(hash, s, Damage(key, name, bytes));
      ValuesMore(s.fs.entries[key].files, name, bytes, s'.written);
      hide TaskOk, GenuineFile, Contents;
      forall p | p in s'.tasks ensures TaskOk(hash, s', s'.tasks[p]) {
        TaskKeeps(hash, s, s', s.tasks[p]);
      }
    }
  }

  lemma {:induction false} RunKeeps(hash: Bytes -> nat, actions: seq<Action>)
    ensures Inv(hash, Run(hash, actions))
  {
    hide Perform;
    if actions != [] {
      RunKeeps(hash, actions[..|actions| - 1]);
      PerformKeeps(hash, Run(hash, actions[..|actions| - 1]), actions[|actions| - 1]);
    }
  }

  /** What a lookup has found: a task holds it while it writes the time of use, and ends with it. */
  predicate Holds(task: Task, artifact: CachedArtifact) {
    match task
    case TouchStage(_, _, found, _) => found == artifact
    case TouchWrite(_, _, found, _, _) => found == artifact
    case TouchRename(_, _, found, _, _) => found == artifact
    case Done(_, outcome) => outcome == Hit(artifact)
    case _ => false
  }

  /** Reads are atomic: in every run, whatever a lookup finds is exactly the files and messages of one store of
      that key which was put in place before, as long as no two contents written in the run collide. That holds
      from the moment at which all files are read, whether or not the time of use is then written. */
  lemma HitIsOneStore(hash: Bytes -> nat, actions: seq<Action>, process: nat, artifact: CachedArtifact)
    requires var s := Run(hash, actions);
             NoCollision(hash, s.written) && process in s.tasks && Holds(s.tasks[process], artifact)
    ensures var s := Run(hash, actions);
            FromOneStore(s.stores, s.tasks[process].key, artifact)
  {
    RunKeeps(hash, actions);
    var s := Run(hash, actions);
    assert TaskOk(hash, s, s.tasks[process]);
  }

  // ----- misses and hits of a reader that is not disturbed -----

  /** A file that is missing, or is not the one that the store was called with, is a miss: the entry is
      partial, mixed with another one, damaged, or was evicted. */
  lemma OtherFileIsMiss(
    hash: Bytes -> nat, s: State, process: nat, pick: Name, now: nat, due: bool, fits: bool, job: Job)
    requires NoCollision(hash, s.written) && Contents(job.files) <= s.written
    requires process in s.tasks && s.tasks[process].Verify? && Describes(hash, s.tasks[process].metadata, job)
    requires pick in s.tasks[process].todo && pick in job.files
    requires var entry := EntryAt(s.fs, s.tasks[process].key);
             entry.files.Values <= s.written && (pick !in entry.files || entry.files[pick] != job.files[pick].bytes)
    ensures var task := s.tasks[process];
            Advance(hash, s, process, pick, now, due, fits) == Set(s, process, Resume(task.key, Miss, task.then_))
  {
    var task := s.tasks[process];
    var entry := EntryAt(s.fs, task.key);
    assert task.metadata.files[pick] == Describe(hash, job.files[pick]);
    assert pick in entry.files ==> entry.files[pick] in entry.files.Values;
    assert job.files[pick].bytes in Contents(job.files);
  }

  function Total(files: map<Name, CachedFile>, names: seq<Name>): nat
    requires forall k | 0 <= k < |names| :: names[k] in files
  {
    if names == [] then 0 else |files[names[0]].bytes| + Total(files, names[1..])
  }

  /** An entry that a read can return: few enough files of known names, not too large, with proper modes. */
  ghost predicate Loadable(job: Job, names: seq<Name>) {
    && Artifact in job.files && |job.files| <= MAX_FILES
    && (forall name :: name in names <==> name in job.files)
    && (forall i, j | 0 <= i < j < |names| :: names[i] != names[j])
    && Readable(job.files)
    && Total(job.files, names) <= MAX_ENTRY_BYTES
  }

  /** The entry is in place as its store has made it. */
  ghost predicate Intact(hash: Bytes -> nat, fs: FileSystem, job: Job) {
    && job.key in fs.entries
    && var entry := fs.entries[job.key];
    && entry.metadata.Json? && Describes(hash, entry.metadata.metadata, job)
    && (forall name | name in job.files :: name in entry.files && entry.files[name] == job.files[name].bytes)
  }

  /** The steps of one process, with nothing in between. */
  function Alone(hash: Bytes -> nat, s: State, process: nat, picks: seq<Name>, now: nat, due: bool): State
    decreases |picks|
  {
    if picks == [] then s
    else Alone(hash, Perform(hash, s, Step(process, picks[0], now, due, true)), process, picks[1..], now, due)
  }

  lemma DescribedAt(hash: Bytes -> nat, m: Metadata, job: Job, pick: Name)
    requires Describes(hash, m, job) && pick in job.files
    ensures pick in m.files && m.files[pick] == Describe(hash, job.files[pick])
  {
  }

  lemma OneFileRead(hash: Bytes -> nat, s: State, process: nat, job: Job, pick: Name, todo: set<Name>, m: Metadata,
                    got: map<Name, CachedFile>, remaining: nat, now: nat, due: bool)
    requires Intact(hash, s.fs, job) && Describes(hash, m, job) && pick in job.files && pick in todo
    requires process in s.tasks && s.tasks[process] == Verify(job.key, m, todo, got, remaining, Answer)
    requires !pick.Unknown? && job.files[pick].mode <= MAX_MODE && |job.files[pick].bytes| <= remaining
    ensures Perform(hash, s, Step(process, pick, now, due, true))
            == Set(s, process, Verify(job.key, m, todo - {pick}, got[pick := job.files[pick]],
                                      remaining - |job.files[pick].bytes|, Answer))
  {
    hide DescribeAll;
    DescribedAt(hash, m, job, pick);
    assert Matches(hash, s.fs.entries[job.key], m.files[pick], pick, remaining);
  }

  /** Where a load is after all files are read. */
  function Ended(key: Key, m: Metadata, artifact: CachedArtifact, due: bool): Task {
    if due then TouchStage(key, m, artifact, Answer) else Done(key, Hit(artifact))
  }

  lemma AllRead(
    hash: Bytes -> nat, s: State, process: nat, key: Key, m: Metadata, got: map<Name, CachedFile>, remaining: nat,
    now: nat, due: bool)
    requires process in s.tasks && s.tasks[process] == Verify(key, m, {}, got, remaining, Answer)
    ensures Perform(hash, s, Step(process, Artifact, now, due, true))
            == Set(s, process, Ended(key, m, CachedArtifact(got, m.messages), due))
  {
  }

  ghost predicate Readable(files: map<Name, CachedFile>) {
    forall name | name in files :: !name.Unknown? && files[name].mode <= MAX_MODE
  }

  /** The names still to be read, each once. */
  ghost predicate Remaining(files: map<Name, CachedFile>, names: seq<Name>, got: map<Name, CachedFile>) {
    && (forall k | 0 <= k < |names| :: names[k] in files)
    && (forall i, j | 0 <= i < j < |names| :: names[i] != names[j])
    && (forall name | name in files && name !in names :: name in got && got[name] == files[name])
    && got.Keys <= files.Keys
  }

  function NameSet(names: seq<Name>): set<Name> {
    set name | name in names
  }

  /** Reading the rest of an intact entry. */
  lemma {:induction false} RestIsRead(
    hash: Bytes -> nat, s: State, process: nat, job: Job, names: seq<Name>, m: Metadata, got: map<Name, CachedFile>,
    remaining: nat,
    now: nat, due: bool)
    requires Intact(hash, s.fs, job) && Describes(hash, m, job) && Readable(job.files)
             && Remaining(job.files, names, got)
    requires process in s.tasks && s.tasks[process] == Verify(job.key, m, NameSet(names), got, remaining, Answer)
    requires Total(job.files, names) <= remaining
    ensures Alone(hash, s, process, names + [Artifact], now, due)
            == Set(s, process, Ended(job.key, m, CachedArtifact(job.files, job.messages), due))
    decreases |names|
  {
    hide Perform, Intact, Alone, Describes, Readable, Remaining, Total, NameSet;
    var all := names + [Artifact];
    if names == [] {
      assert all == [Artifact];
      NoneRemaining(job.files, got);
      DescribedMessages(hash, m, job);
      AllRead(hash, s, process, job.key, m, got, remaining, now, due);
      AloneLast(hash, s, process, Artifact, now, due);
    } else {
      var pick, rest := names[0], names[1..];
      assert all[0] == pick && all[1..] == rest + [Artifact];
      NextRemaining(job.files, names, got);
      var file := job.files[pick];
      OneFileRead(hash, s, process, job, pick, NameSet(names), m, got, remaining, now, due);
      var s1 := Perform(hash, s, Step(process, pick, now, due, true));
      RestIsRead(hash, s1, process, job, rest, m, got[pick := file], remaining - |file.bytes|, now, due);
      AloneStep(hash, s, process, all, now, due);
    }
  }

  lemma AloneStep(hash: Bytes -> nat, s: State, process: nat, picks: seq<Name>, now: nat, due: bool)
    requires picks != []
    ensures Alone(hash, s, process, picks, now, due)
            == Alone(hash, Perform(hash, s, Step(process, picks[0], now, due, true)), process, picks[1..], now, due)
  {
    hide Perform;
  }

  lemma AloneLast(hash: Bytes -> nat, s: State, process: nat, pick: Name, now: nat, due: bool)
    ensures Alone(hash, s, process, [pick], now, due) == Perform(hash, s, Step(process, pick, now, due, true))
  {
    hide Perform;
    assert [pick][1..] == [];
  }

  lemma DescribedMessages(hash: Bytes -> nat, m: Metadata, job: Job)
    requires Describes(hash, m, job)
    ensures m.messages == job.messages
  {
  }

  lemma NoneRemaining(files: map<Name, CachedFile>, got: map<Name, CachedFile>)
    requires Remaining(files, [], got)
    ensures got == files && NameSet([]) == {}
  {
  }

  lemma NextRemaining(files: map<Name, CachedFile>, names: seq<Name>, got: map<Name, CachedFile>)
    requires names != [] && Remaining(files, names, got) && Readable(files)
    ensures var pick, rest := names[0], names[1..];
            && pick in files && pick in NameSet(names) && NameSet(names) - {pick} == NameSet(rest)
            && !pick.Unknown? && files[pick].mode <= MAX_MODE
            && Remaining(files, rest, got[pick := files[pick]])
            && Total(files, names) == |files[pick].bytes| + Total(files, rest)
  {
    var pick, rest := names[0], names[1..];
    assert names == [pick] + rest;
    assert pick in names && pick !in rest;
    assert forall name :: name in names <==> name == pick || name in rest;
    RestOfNames(names);
  }

  lemma RestOfNames(names: seq<Name>)
    requires names != [] && names[0] !in names[1..]
    ensures NameSet(names) - {names[0]} == NameSet(names[1..])
  {
    assert names == [names[0]] + names[1..];
  }

  lemma Found(hash: Bytes -> nat, s: State, process: nat, job: Job, now: nat, due: bool)
    requires Intact(hash, s.fs, job) && Artifact in job.files && |job.files| <= MAX_FILES
    requires process in s.tasks && s.tasks[process] == Lookup(job.key, Answer)
    ensures var m := s.fs.entries[job.key].metadata.metadata;
            Perform(hash, s, Step(process, Artifact, now, due, true))
            == Set(s, process, Verify(job.key, m, job.files.Keys, map[], MAX_ENTRY_BYTES, Answer))
  {
    var m := s.fs.entries[job.key].metadata.metadata;
    assert m.files.Keys == job.files.Keys;
    assert |m.files| == |m.files.Keys| && |job.files| == |job.files.Keys|;
  }

  /** A reader that nothing disturbs finds an intact entry, in whatever order it reads the files and whether or
      not the time of use is due. */
  lemma IntactIsHit(hash: Bytes -> nat, s: State, process: nat, job: Job, names: seq<Name>, now: nat, due: bool)
    requires Intact(hash, s.fs, job) && Loadable(job, names)
    requires process in s.tasks && s.tasks[process] == Lookup(job.key, Answer)
    ensures var artifact := CachedArtifact(job.files, job.messages);
            var ended := Ended(job.key, s.fs.entries[job.key].metadata.metadata, artifact, due);
            && Alone(hash, s, process, [Artifact] + names + [Artifact], now, due) == Set(s, process, ended)
            && Holds(ended, artifact) && (!due ==> ended == Done(job.key, Hit(artifact)))
  {
    hide Perform, Alone, Intact, NameSet, Loadable, Remaining, Readable, Total;
    LoadableNames(job, names);
    IntactMetadata(hash, s.fs, job);
    var m := s.fs.entries[job.key].metadata.metadata;
    FoundAlone(hash, s, process, job, names, now, due);
    var s1 := Set(s, process, Verify(job.key, m, job.files.Keys, map[], MAX_ENTRY_BYTES, Answer));
    RestIsRead(hash, s1, process, job, names, m, map[], MAX_ENTRY_BYTES, now, due);
    SetTwice(s, process, s1.tasks[process], Ended(job.key, m, CachedArtifact(job.files, job.messages), due));
  }

  lemma SetTwice(s: State, process: nat, a: Task, b: Task)
    ensures Set(Set(s, process, a), process, b) == Set(s, process, b)
  {
  }

  lemma FoundAlone(hash: Bytes -> nat, s: State, process: nat, job: Job, names: seq<Name>, now: nat, due: bool)
    requires Intact(hash, s.fs, job) && Artifact in job.files && |job.files| <= MAX_FILES
    requires process in s.tasks && s.tasks[process] == Lookup(job.key, Answer)
    ensures var m := s.fs.entries[job.key].metadata.metadata;
            var s1 := Set(s, process, Verify(job.key, m, job.files.Keys, map[], MAX_ENTRY_BYTES, Answer));
            Alone(hash, s, process, [Artifact] + names + [Artifact], now, due)
            == Alone(hash, s1, process, names + [Artifact], now, due)
  {
    hide Perform, Alone;
    Found(hash, s, process, job, now, due);
    var all := [Artifact] + names + [Artifact];
    assert all[0] == Artifact && all[1..] == names + [Artifact];
    AloneStep(hash, s, process, all, now, due);
  }

  /** If the time of use is due, three more steps write it: the entry stays intact, nothing else is changed, and the
      load ends with its hit. */
  lemma DueIsHit(hash: Bytes -> nat, s: State, process: nat, job: Job, names: seq<Name>, now: nat)
    requires Intact(hash, s.fs, job) && Loadable(job, names) && Apart(s)
    requires process in s.tasks && s.tasks[process] == Lookup(job.key, Answer)
    ensures var picks := [Artifact] + names + [Artifact] + [Artifact, Artifact, Artifact];
            var touched := Alone(hash, s, process, picks, now, true);
            && touched.tasks == s.tasks[process := Done(job.key, Hit(CachedArtifact(job.files, job.messages)))]
            && Intact(hash, touched.fs, job) && Touched(s.fs, touched.fs, job.key, now)
  {
    hide Alone, Intact, Apart, Touched, Loadable;
    IntactMetadata(hash, s.fs, job);
    IntactIsHit(hash, s, process, job, names, now, true);
    AloneJoin(hash, s, process, [Artifact] + names + [Artifact], [Artifact, Artifact, Artifact], now, true);
    StaysIntact(hash, s.fs, job, now);
    TouchAlone(hash, s, process, job.key, s.fs.entries[job.key].metadata.metadata,
               CachedArtifact(job.files, job.messages), now);
  }

  lemma {:induction false} AloneJoin(
    hash: Bytes -> nat, s: State, process: nat, a: seq<Name>, b: seq<Name>, now: nat, due: bool)
    ensures Alone(hash, s, process, a + b, now, due)
            == Alone(hash, Alone(hash, s, process, a, now, due), process, b, now, due)
    decreases |a|
  {
    hide Perform;
    if a == [] {
      assert a + b == b;
    } else {
      assert (a + b)[0] == a[0] && (a + b)[1..] == a[1..] + b;
      AloneJoin(hash, Perform(hash, s, Step(process, a[0], now, due, true)), process, a[1..], b, now, due);
    }
  }

  /** Only the time of use of one entry differs. */
  ghost predicate Touched(fs: FileSystem, fs': FileSystem, key: Key, now: nat) {
    && key in fs.entries && fs.entries[key].metadata.Json?
    && fs'.entries == fs.entries[key := WithTime(fs.entries[key], now)]
    && fs'.locks == fs.locks && fs'.stages == fs.stages
  }

  function WithTime(entry: Entry, now: nat): Entry
    requires entry.metadata.Json?
  {
    entry.(metadata := Json(entry.metadata.metadata.(lastUsed := now)))
  }

  lemma StaysIntact(hash: Bytes -> nat, fs: FileSystem, job: Job, now: nat)
    requires Intact(hash, fs, job)
    ensures forall fs' | Touched(fs, fs', job.key, now) :: Intact(hash, fs', job)
  {
    hide DescribeAll;
  }

  lemma TouchAlone(
    hash: Bytes -> nat, s: State, process: nat, key: Key, m: Metadata, artifact: CachedArtifact, now: nat)
    requires key in s.fs.entries && s.fs.entries[key].metadata == Json(m) && Apart(s)
    ensures var read := Set(s, process, TouchStage(key, m, artifact, Answer));
            var touched := Alone(hash, read, process, [Artifact, Artifact, Artifact], now, true);
            touched.tasks == s.tasks[process := Done(key, Hit(artifact))] && Touched(s.fs, touched.fs, key, now)
  {
    hide Alone;
    var step := Step(process, Artifact, now, true, true);
    var s0 := Set(s, process, TouchStage(key, m, artifact, Answer));
    var s1 := Perform(hash, s0, step);
    var s2 := Perform(hash, s1, step);
    AloneStep(hash, s0, process, [Artifact, Artifact, Artifact], now, true);
    AloneStep(hash, s1, process, [Artifact, Artifact], now, true);
    AloneLast(hash, s2, process, Artifact, now, true);
    assert [Artifact, Artifact, Artifact][1..] == [Artifact, Artifact] && [Artifact, Artifact][1..] == [Artifact];
    var stage, m' := s.fs.nextStage, m.(lastUsed := now);
    assert stage !in s.fs.stages;
    assert s1.tasks[process] == TouchWrite(key, m', artifact, Answer, stage);
    assert s2.tasks[process] == TouchRename(key, m', artifact, Answer, stage);
    var s3 := Perform(hash, s2, step);
    assert s3.fs.stages == s.fs.stages;
    assert s3.tasks == s.tasks[process := Done(key, Hit(artifact))];
  }

  lemma LoadableNames(job: Job, names: seq<Name>)
    requires Loadable(job, names)
    ensures Artifact in job.files && |job.files| <= MAX_FILES && Readable(job.files)
    ensures job.files.Keys == NameSet(names) && Remaining(job.files, names, map[])
    ensures Total(job.files, names) <= MAX_ENTRY_BYTES
  {
  }

  lemma IntactMetadata(hash: Bytes -> nat, fs: FileSystem, job: Job)
    requires Intact(hash, fs, job)
    ensures job.key in fs.entries && fs.entries[job.key].metadata.Json?
            && Describes(hash, fs.entries[job.key].metadata.metadata, job)
  {
  }
}
