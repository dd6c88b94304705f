/** Uploading a file: a pending row and a job, segments in any order and as often as it
    takes, and completion once all have landed (internal/drive/upload.go). */
module Uploads {
  import opened Drive
  import opened DriveRuns
  import opened DriveService
  import opened DriveSteps
  import opened Geometry
  import opened Paths
  import opened Sums
  import opened TagCodec
  import opened Text
  import opened Tree
  import opened UploadJob

  datatype Refusal = Accepted | NameRefused | SizeUnknown | QuotaExceeded | NameTaken | DirBlocked

  datatype Put = Stored | JobFinished | BadIndex | BadLength

  /** The job speaks of the file's geometry, and a bit is only set for a segment whose row
      is there. */
  predicate InStep(s: State, f: Id, job: Job) {
    && f in s.files && s.files[f].size == job.size && s.files[f].segmentSize == job.segmentSize
    && s.files[f].segmentCount == job.count
    && forall i | 1 <= i <= job.count && MaskHas(job.mask, i) :: (f, i) in s.segs
  }

  /** What a request brings along: a fresh id, an owner, sizes that fit 64 bits. */
  predicate GoodRequest(s: State, f: Id, size: int, segmentSize: int, owner: Id) {
    && ValidID(f) && f !in s.files && (forall k | k in s.segs :: k.0 != f)
    && size <= MAX_INT64 && 0 < segmentSize <= MAX_INT64
    && (owner == "" || (ValidID(owner) && owner in s.users))
  }

  function NewFile(dir: Id, name: string, size: int, segmentSize: int, owner: Id): File
    requires segmentSize > 0
  {
    File(dir, name, size, segmentSize, SegmentCount(size, segmentSize), Pending, owner)
  }

  lemma CountFits(size: int, segmentSize: int)
    requires 0 <= size <= MAX_INT64 && 0 < segmentSize
    ensures 1 <= SegmentCount(size, segmentSize) <= MAX_INT64
  {
    if size > 0 {
      CountBounds(size, segmentSize);
      var n := SegmentCount(size, segmentSize);
      if n > size { MulMono(size, n - 1, segmentSize); MulMono(1, segmentSize, size); }
    }
  }

  lemma InsertAllowed(cls: CharClasses, s: State, f: Id, dir: Id, name: string, size: int, segmentSize: int, owner: Id)
    requires IndexOk(s) && GoodRequest(s, f, size, segmentSize, owner) && size >= 0 && NameAllowed(name)
    requires (dir == "" || dir in s.dirs) && FileIn(s.files, dir, name) == None
    ensures DriveSteps.Enabled(s, InsertFile(f, NewFile(dir, name, size, segmentSize, owner)))
    ensures var t := Apply(cls, s, InsertFile(f, NewFile(dir, name, size, segmentSize, owner)));
            IndexOk(t) && t.files == s.files[f := NewFile(dir, name, size, segmentSize, owner)] && t.dirs == s.dirs && t.segs == s.segs
  {
    CountFits(size, segmentSize);
    hide Consistent, NameAllowed, ValidID, SegmentCount;
  }

  lemma Overwritten(cls: CharClasses, s: State, f: Id, was: Id, size: int, segmentSize: int, owner: Id)
    requires IndexOk(s) && GoodRequest(s, f, size, segmentSize, owner) && was in s.files
    ensures DriveSteps.Enabled(s, DeleteFile(was))
    ensures var t := Apply(cls, s, DeleteFile(was));
            && IndexOk(t) && GoodRequest(t, f, size, segmentSize, owner) && t.dirs == s.dirs
            && FileIn(t.files, s.files[was].dir, s.files[was].name) == None
            && t.files == s.files - {was}
  {
    hide Consistent;
  }

  lemma FileInFacts(files: Files, dir: Id, name: string)
    requires FileIn(files, dir, name).Some?
    ensures var f := FileIn(files, dir, name).value; f in files && files[f].dir == dir && files[f].name == name
  {
  }

  lemma NothingLanded(cls: CharClasses, s: State, f: Id, file: File)
    requires f in s.files && s.files[f] == file && (forall k | k in s.segs :: k.0 != f)
    requires file.segmentSize > 0 && file.segmentCount == SegmentCount(file.size, file.segmentSize)
    ensures InStep(s, f, Begun(file.size, file.segmentSize))
  {
    forall i ensures !MaskHas(Begun(file.size, file.segmentSize).mask, i) {
      NewMaskEmpty(file.segmentCount, i);
    }
    hide MaskHas;
  }

  lemma DirFound(s: State, path: string, dir: Id)
    requires IndexOk(s) && IsCleanPath(path) && Resolved(s.dirs, path) == Some(dir)
    ensures dir == "" || dir in s.dirs
  {
    CleanNonEmpty(path);
    ResolvedPath(s, path);
  }

  lemma NewFileIs(dir: Id, name: string, size: int, segmentSize: int, owner: Id)
    requires segmentSize > 0
    ensures var file := NewFile(dir, name, size, segmentSize, owner);
            && file.dir == dir && file.size == size && file.segmentSize == segmentSize
            && file.segmentCount == SegmentCount(file.size, file.segmentSize)
  {
    hide SegmentCount;
  }

  lemma NoSegments(s: State, f: Id, size: int, segmentSize: int, owner: Id)
    requires GoodRequest(s, f, size, segmentSize, owner)
    ensures forall k | k in s.segs :: k.0 != f
  {
  }

  /** What the upload adds to its owner's files: overwriting one's own file counts only the
      difference. */
  ghost function NetBytes(s: State, dirPath: string, name: string, size: int, overwrite: bool, owner: Id): int {
    match Resolved(s.dirs, dirPath)
    case None => size
    case Some(dir) =>
      match FileIn(s.files, dir, name)
      case None => size
      case Some(was) => if overwrite && was in s.files && s.files[was].owner == owner then size - s.files[was].size else size
  }

  /** CheckQuota: the server itself and accounts without a quota are never refused. */
  predicate OverQuota(owner: Id, quota: int, used: int, bytes: int) {
    owner != "" && bytes > 0 && quota > 0 && used + bytes > quota
  }

  // ------------------------------------------------------------ what the quota check means

  /** What UsedBytesByOwner sums up. */
  function Charged(files: Files, owner: Id): map<Id, int> {
    map f | f in files && files[f].owner == owner && files[f].status != Broken :: files[f].size
  }

  ghost function UsedBy(files: Files, owner: Id): int {
    Total(Charged(files, owner))
  }

  function Namesakes(files: Files, dir: Id, name: string): set<Id> {
    set g | g in files && files[g].dir == dir && files[g].name == name
  }

  /** The files as the upload would leave them. */
  ghost function Intended(s: State, dirPath: string, name: string, overwrite: bool, f: Id, file: File): Files {
    match Resolved(s.dirs, dirPath)
    case None => s.files[f := file]
    case Some(dir) => (if overwrite then s.files - Namesakes(s.files, dir, name) else s.files)[f := file]
  }

  /** The upload replaces a file of its owner that a rebuild has marked as broken. */
  ghost predicate OverwritesBroken(s: State, dirPath: string, name: string, overwrite: bool, owner: Id) {
    && overwrite && Resolved(s.dirs, dirPath).Some?
    && exists g | g in Namesakes(s.files, Resolved(s.dirs, dirPath).value, name) ::
         s.files[g].owner == owner && s.files[g].status == Broken
  }

  lemma UsedWith(files: Files, f: Id, file: File, owner: Id)
    requires f !in files && file.owner == owner && file.status != Broken
    ensures UsedBy(files[f := file], owner) == UsedBy(files, owner) + file.size
  {
    assert Charged(files[f := file], owner) == Charged(files, owner)[f := file.size];
    TotalPut(Charged(files, owner), f, file.size);
  }

  lemma UsedWithout(files: Files, g: Id, owner: Id)
    requires g in files
    ensures UsedBy(files - {g}, owner)
            == UsedBy(files, owner) - if files[g].owner == owner && files[g].status != Broken then files[g].size else 0
  {
    if g in Charged(files, owner) {
      TotalSplit(Charged(files, owner), g);
      assert Charged(files - {g}, owner) == Charged(files, owner) - {g};
    } else {
      assert Charged(files - {g}, owner) == Charged(files, owner);
    }
  }

  lemma OneNamesake(s: State, dir: Id, name: string)
    requires IndexOk(s)
    ensures match FileIn(s.files, dir, name)
            case None => Namesakes(s.files, dir, name) == {}
            case Some(g) => g in s.files && Namesakes(s.files, dir, name) == {g}
  {
    hide Consistent;
  }

  /** The net bytes are what the upload adds to what is counted, unless it replaces a broken
      file, which is not counted but subtracted all the same. */
  lemma NetBytesMean(s: State, dirPath: string, name: string, overwrite: bool, owner: Id, f: Id, file: File)
    requires IndexOk(s) && f !in s.files && file.owner == owner && file.status != Broken
    requires forall g | g in s.files :: s.files[g].size >= 0
    ensures var more := UsedBy(Intended(s, dirPath, name, overwrite, f, file), owner) - UsedBy(s.files, owner);
            && NetBytes(s, dirPath, name, file.size, overwrite, owner) <= more
            && (!OverwritesBroken(s, dirPath, name, overwrite, owner) ==>
                  NetBytes(s, dirPath, name, file.size, overwrite, owner) == more)
  {
    hide Resolved, IndexOk, Charged, Total;
    UsedWith(s.files, f, file, owner);
    if Resolved(s.dirs, dirPath).Some? {
      var dir := Resolved(s.dirs, dirPath).value;
      OneNamesake(s, dir, name);
      hide FileIn;
      if overwrite && FileIn(s.files, dir, name).Some? {
        var g := FileIn(s.files, dir, name).value;
        UsedWithout(s.files, g, owner);
        UsedWith(s.files - {g}, f, file, owner);
        assert g in Namesakes(s.files, dir, name);
      } else if overwrite {
        assert s.files - {} == s.files;
      }
    }
  }

  ghost predicate QuotaKnown(s: State, owner: Id, used: int) {
    used == UsedBy(s.files, owner) && forall g | g in s.files :: s.files[g].size >= 0
  }

  /** Overwriting one's own broken file by as many bytes passes whatever quota there is, and
      adds them to what is counted. */
  lemma BrokenOverwriteIsFree(s: State, dirPath: string, name: string, owner: Id, quota: int, used: int, f: Id, file: File)
    requires IndexOk(s) && f !in s.files && QuotaKnown(s, owner, used) && file.owner == owner && file.status != Broken
    requires OverwritesBroken(s, dirPath, name, true, owner)
    requires forall g | g in Namesakes(s.files, Resolved(s.dirs, dirPath).value, name) :: s.files[g].size == file.size
    ensures !OverQuota(owner, quota, used, NetBytes(s, dirPath, name, file.size, true, owner))
    ensures UsedBy(Intended(s, dirPath, name, true, f, file), owner) == used + file.size
  {
    hide Resolved, IndexOk, Charged, Total;
    var dir := Resolved(s.dirs, dirPath).value;
    OneNamesake(s, dir, name);
    hide FileIn;
    var g := FileIn(s.files, dir, name).value;
    UsedWithout(s.files, g, owner);
    UsedWith(s.files - {g}, f, file, owner);
  }

  /** Only the place of the new file differs from what was intended. */
  lemma SameUse(s: State, t: State, dirPath: string, name: string, overwrite: bool, f: Id, dir: Id, owner: Id, was: File)
    requires Resolved(s.dirs, dirPath) == Some(dir) || (Resolved(s.dirs, dirPath).None? && Namesakes(s.files, dir, name) == {})
    requires f in t.files && t.files == (s.files - Namesakes(s.files, dir, name))[f := t.files[f]]
    requires !overwrite ==> Namesakes(s.files, dir, name) == {}
    requires was.owner == t.files[f].owner && was.status == t.files[f].status && was.size == t.files[f].size
    ensures UsedBy(t.files, owner) == UsedBy(Intended(s, dirPath, name, overwrite, f, was), owner)
  {
    hide Resolved, Namesakes, Total;
    var left := s.files - Namesakes(s.files, dir, name);
    assert s.files - {} == s.files;
    assert Intended(s, dirPath, name, overwrite, f, was) == left[f := was];
    hide Intended;
    assert Charged(left[f := was], owner) == Charged(left[f := t.files[f]], owner);
  }

  /** A directory that was made on the way is empty; one that was there is the same. */
  lemma SameDir(s: State, t: State, dirPath: string, dir: Id, name: string)
    requires IndexOk(s) && Resolved(t.dirs, dirPath) == Some(dir) && Consistent(t.dirs)
    requires forall k | k in s.dirs :: k in t.dirs && t.dirs[k] == s.dirs[k]
    ensures Resolved(s.dirs, dirPath) == Some(dir) || (Resolved(s.dirs, dirPath).None? && Namesakes(s.files, dir, name) == {})
  {
    GrownDir(s, t, dirPath);
    assert "" !in t.dirs;
    hide Consistent, DirByPath;
  }

  lemma QuotaMeans(s: State, dirPath: string, name: string, size: int, segmentSize: int, overwrite: bool, owner: Id,
                   quota: int, used: int, f: Id)
    requires IndexOk(s) && GoodRequest(s, f, size, segmentSize, owner) && segmentSize > 0
    ensures var after := UsedBy(Intended(s, dirPath, name, overwrite, f, NewFile("", name, size, segmentSize, owner)), owner);
            var over := OverQuota(owner, quota, used, NetBytes(s, dirPath, name, size, overwrite, owner));
            QuotaKnown(s, owner, used) ==>
              && (over ==> owner != "" && after > quota > 0)
              && (!over && owner != "" && quota > 0 && after > used && !OverwritesBroken(s, dirPath, name, overwrite, owner) ==>
                    after <= quota)
  {
    hide IndexOk, NetBytes, Intended, UsedBy, OverwritesBroken, SegmentCount;
    if QuotaKnown(s, owner, used) {
      NetBytesMean(s, dirPath, name, overwrite, owner, f, NewFile("", name, size, segmentSize, owner));
    }
  }

  lemma BegunUse(s: State, mid: State, t: State, dirPath: string, name: string, size: int, segmentSize: int, overwrite: bool,
                 f: Id, dir: Id, owner: Id)
    requires IndexOk(s) && IndexOk(mid) && GoodRequest(s, f, size, segmentSize, owner) && segmentSize > 0
    requires Grown(s, mid, dirPath) && Resolved(mid.dirs, dirPath) == Some(dir)
    requires t.files == (mid.files - Namesakes(mid.files, dir, name))[f := NewFile(dir, name, size, segmentSize, owner)]
    requires !overwrite ==> Namesakes(mid.files, dir, name) == {}
    ensures UsedBy(t.files, owner)
            == UsedBy(Intended(s, dirPath, name, overwrite, f, NewFile("", name, size, segmentSize, owner)), owner)
  {
    hide Consistent, Resolved, Namesakes, UsedBy, Intended, SegmentCount, IsDescendant;
    assert Consistent(mid.dirs);
    hide IndexOk;
    SameDir(s, mid, dirPath, dir, name);
    SameUse(s, t, dirPath, name, overwrite, f, dir, owner, NewFile("", name, size, segmentSize, owner));
  }

  method CheckQuota(svc: Service, dirPath: string, name: string, size: int, overwrite: bool, owner: Id, quota: int, used: int)
    returns (over: bool)
    requires IndexOk(svc.state)
    ensures over <==> OverQuota(owner, quota, used, NetBytes(svc.state, dirPath, name, size, overwrite, owner))
  {
    assert Consistent(svc.state.dirs);
    hide Consistent, Resolved, FileIn, IndexOk;
    var bytes := size;
    if overwrite {
      var dir := svc.ResolveDir(dirPath);
      if dir.Some? {
        var was := svc.FindFile(dir.value, name);
        if was.Some? {
          FileInFacts(svc.state.files, dir.value, name);
          if svc.state.files[was.value].owner == owner {
            bytes := bytes - svc.state.files[was.value].size;
          }
        }
      }
    }
    over := owner != "" && bytes > 0 && quota > 0 && used + bytes > quota;
  }

  /** clearName and InsertFile. */
  method InsertInto(svc: Service, f: Id, dir: Id, name: string, size: int, segmentSize: int, overwrite: bool, owner: Id,
                    ghost before: State, ghost steps: seq<Step>)
    returns (out: Refusal, ghost more: seq<Step>)
    requires IndexOk(svc.state) && GoodRequest(svc.state, f, size, segmentSize, owner) && size >= 0 && NameAllowed(name)
    requires segmentSize > 0 && (dir == "" || dir in svc.state.dirs)
    requires DriveRuns.IsRun(svc.cls, before, steps) && AfterRun(svc.cls, before, steps) == svc.state
    modifies svc
    ensures DriveRuns.IsRun(svc.cls, before, more) && AfterRun(svc.cls, before, more) == svc.state
    ensures svc.state.dirs == old(svc.state).dirs
    ensures out == NameTaken || out == Accepted
    ensures out == Accepted ==>
              && svc.state.files == (old(svc.state).files - Namesakes(old(svc.state).files, dir, name))
                                    [f := NewFile(dir, name, size, segmentSize, owner)]
              && (!overwrite ==> Namesakes(old(svc.state).files, dir, name) == {})
    ensures out == NameTaken ==> !overwrite && svc.state == old(svc.state) && FileIn(svc.state.files, dir, name).Some?
    ensures out == Accepted ==>
              && f in svc.state.files && svc.state.files[f] == NewFile(dir, name, size, segmentSize, owner)
              && svc.state.files[f].dir == dir && InStep(svc.state, f, Begun(size, segmentSize))
              && (forall g | g in svc.state.files && g != f :: g in old(svc.state).files && svc.state.files[g] == old(svc.state).files[g])
              && (forall g | g in old(svc.state).files && g !in svc.state.files ::
                    overwrite && old(svc.state).files[g].dir == dir && old(svc.state).files[g].name == name)
  {
    hide *;
    more := steps;
    OneNamesake(svc.state, dir, name);
    assert svc.state.files - {} == svc.state.files;
    var taken := svc.FindFile(dir, name);
    if taken.Some? {
      if !overwrite {
        return NameTaken, more;
      }
      FileInFacts(svc.state.files, dir, name);
      Overwritten(svc.cls, svc.state, f, taken.value, size, segmentSize, owner);
      more := svc.Take(DeleteFile(taken.value), before, more);
    }
    NoSegments(svc.state, f, size, segmentSize, owner);
    InsertAllowed(svc.cls, svc.state, f, dir, name, size, segmentSize, owner);
    more := svc.Take(InsertFile(f, NewFile(dir, name, size, segmentSize, owner)), before, more);
    NewFileIs(dir, name, size, segmentSize, owner);
    NothingLanded(svc.cls, svc.state, f, svc.state.files[f]);
    out := Accepted;
  }

  /** Begin: within the owner's quota a pending row and a job, on the way making the directory and, when asked to,
      deleting the file that has the name. */
  method Begin(svc: Service, dirPath: string, name: string, size: int, segmentSize: int, overwrite: bool, owner: Id,
               quota: int, used: int, f: Id, ids: seq<Id>)
    returns (out: Refusal, job: Job, ghost steps: seq<Step>)
    requires IndexOk(svc.state) && IsCleanPath(dirPath) && FreshIds(svc.state, ids) && |ids| >= |SplitPath(dirPath)|
    requires GoodRequest(svc.state, f, size, segmentSize, owner)
    modifies svc
    ensures out == NameRefused <==> !NameAllowed(name)
    ensures out == SizeUnknown <==> NameAllowed(name) && size < 0
    ensures out == QuotaExceeded <==>
              NameAllowed(name) && size >= 0
              && OverQuota(owner, quota, used, NetBytes(old(svc.state), dirPath, name, size, overwrite, owner))
    ensures out == QuotaExceeded ==> svc.state == old(svc.state)
    ensures QuotaKnown(old(svc.state), owner, used) && out == QuotaExceeded ==>
              && owner != "" && quota > 0
              && UsedBy(Intended(old(svc.state), dirPath, name, overwrite, f, NewFile("", name, size, segmentSize, owner)), owner)
                 > quota
    ensures QuotaKnown(old(svc.state), owner, used) && out == Accepted ==>
              UsedBy(svc.state.files, owner)
              == UsedBy(Intended(old(svc.state), dirPath, name, overwrite, f, NewFile("", name, size, segmentSize, owner)), owner)
    ensures QuotaKnown(old(svc.state), owner, used) && out == Accepted && owner != "" && quota > 0
            && UsedBy(svc.state.files, owner) > used && !OverwritesBroken(old(svc.state), dirPath, name, overwrite, owner) ==>
              UsedBy(svc.state.files, owner) <= quota
    ensures out == DirBlocked <==>
              NameAllowed(name) && size >= 0 && Blocked(old(svc.state), dirPath)
              && !OverQuota(owner, quota, used, NetBytes(old(svc.state), dirPath, name, size, overwrite, owner))
    ensures out == NameTaken ==> !overwrite && exists dir :: Resolved(svc.state.dirs, dirPath) == Some(dir) && FileIn(svc.state.files, dir, name).Some?
    ensures out == Accepted ==>
              && f in svc.state.files && Resolved(svc.state.dirs, dirPath) == Some(svc.state.files[f].dir)
              && svc.state.files[f] == NewFile(svc.state.files[f].dir, name, size, segmentSize, owner)
              && job == Begun(size, segmentSize) && InStep(svc.state, f, job)
              && (forall g | g in svc.state.files && g != f :: g in old(svc.state).files && svc.state.files[g] == old(svc.state).files[g])
              && (forall g | g in old(svc.state).files && g !in svc.state.files ::
                    overwrite && old(svc.state).files[g].dir == svc.state.files[f].dir && old(svc.state).files[g].name == name)
    ensures DriveRuns.IsRun(svc.cls, old(svc.state), steps) && AfterRun(svc.cls, old(svc.state), steps) == svc.state
    ensures Inv(old(svc.state)) && Sane(svc.cls) && AllClean(svc.cls, old(svc.state), steps) ==> Inv(svc.state)
  {
    assert segmentSize > 0;
    hide *;
    steps, job := [], Begun(0, segmentSize);
    ghost var s := svc.state;
    NoSteps(svc.cls, svc.state);
    if !NameAllowed(name) {
      return NameRefused, job, steps;
    }
    if size < 0 {
      return SizeUnknown, job, steps;
    }
    QuotaMeans(s, dirPath, name, size, segmentSize, overwrite, owner, quota, used, f);
    var over := CheckQuota(svc, dirPath, name, size, overwrite, owner, quota, used);
    if over {
      return QuotaExceeded, job, steps;
    }
    var made, dir;
    made, dir, steps := svc.Mkdir(dirPath, ids);
    if made != Succeeded {
      return DirBlocked, job, steps;
    }
    DirFound(svc.state, dirPath, dir);
    ghost var mid := svc.state;
    out, steps := InsertInto(svc, f, dir, name, size, segmentSize, overwrite, owner, s, steps);
    job := Begun(size, segmentSize);
    KeepsInv(svc.cls, s, steps);
    if out == Accepted {
      BegunUse(s, mid, svc.state, dirPath, name, size, segmentSize, overwrite, f, dir, owner);
    }
  }

  /** A segment lands: its row is there before its bit is set, so the job never runs ahead
      of the index. */
  lemma PutKeepsStep(cls: CharClasses, s: State, f: Id, job: Job, index: int, size: nat)
    requires InStep(s, f, job) && 1 <= index <= job.count
    ensures DriveSteps.Enabled(s, PutSegment(f, index, size))
    ensures InStep(Apply(cls, s, PutSegment(f, index, size)), f, Marked(job, index, size))
    ensures var t := Apply(cls, s, PutSegment(f, index, size));
            && t.files == s.files && t.dirs == s.dirs && t.users == s.users
            && (f, index) in t.segs && t.segs[(f, index)] == Seg(size, s.next) && s.next in t.msgs
            && forall k | k in s.segs && k != (f, index) :: k in t.segs && t.segs[k] == s.segs[k]
  {
    forall i | 1 <= i <= job.count && MaskHas(Marked(job, index, size).mask, i) ensures i == index || MaskHas(job.mask, i) {
      if !MaskHas(job.mask, index) { MaskWithHas(job.mask, index, i); }
    }
    hide MaskHas, MaskWith, AllSet, FileCaption;
  }

  /** PutSegment: only a job that is under way, only one of its segments, only at that
      segment's own length. */
  method PutOne(svc: Service, f: Id, job: Job, index: int, size: int)
    returns (out: Put, after: Job, ghost steps: seq<Step>)
    requires IndexOk(svc.state) && job.segmentSize > 0
    requires !job.status.Aborted() ==> InStep(svc.state, f, job)
    modifies svc
    ensures out == Stored <==>
              && (job.status == JobPending || job.status == JobRunning)
              && 1 <= index <= job.count && size == SegmentSize(job.size, job.segmentSize, index)
    ensures out == Stored ==>
              && after == Marked(SetIf(job, JobRunning, {JobPending, JobRunning}), index, size)
              && InStep(svc.state, f, after)
              && (f, index) in svc.state.segs && svc.state.segs[(f, index)].size == size
              && svc.state.files == old(svc.state).files && svc.state.dirs == old(svc.state).dirs
              && forall k | k in old(svc.state).segs && k != (f, index) :: k in svc.state.segs && svc.state.segs[k] == old(svc.state).segs[k]
    ensures out != Stored ==> svc.state == old(svc.state) && after == job
    ensures DriveRuns.IsRun(svc.cls, old(svc.state), steps) && AfterRun(svc.cls, old(svc.state), steps) == svc.state
    ensures Inv(old(svc.state)) && Sane(svc.cls) && AllClean(svc.cls, old(svc.state), steps) ==> Inv(svc.state)
  {
    steps, after := [], job;
    NoSteps(svc.cls, svc.state);
    if job.status.Aborted() {
      return JobFinished, after, steps;
    }
    if index < 1 || index > job.count {
      return BadIndex, after, steps;
    }
    hide IndexOk, InStep, SegmentSize, SegmentCount, DriveRuns.IsRun, AfterRun, AllClean, Inv, Sane, DriveSteps.Enabled, Apply, Marked;
    if size != SegmentSize(svc.state.files[f].size, svc.state.files[f].segmentSize, index) {
      return BadLength, after, steps;
    }
    if job.status != JobPending && job.status != JobRunning {
      return JobFinished, after, steps;
    }
    var running := job.(status := JobRunning);
    PutKeepsStep(svc.cls, svc.state, f, running, index, size);
    ghost var s := svc.state;
    steps := svc.Take(PutSegment(f, index, size), s, steps);
    KeepsInv(svc.cls, s, steps);
    after := Marked(running, index, size);
    out := Stored;
  }

  /** Complete: refused until every bit is set; then every segment row is there, and the
      file is complete. */
  method Complete(svc: Service, f: Id, job: Job) returns (ok: bool, after: Job, ghost steps: seq<Step>)
    requires IndexOk(svc.state) && InStep(svc.state, f, job)
    modifies svc
    ensures ok <==> AllSet(job.mask, job.count)
    ensures ok ==>
              && svc.state.files == old(svc.state).files[f := old(svc.state).files[f].(status := Drive.Complete)]
              && svc.state.segs == old(svc.state).segs && svc.state.msgs == old(svc.state).msgs
              && Landed(svc.state.segs, f, svc.state.files[f].segmentCount) && after.status == JobComplete
    ensures !ok ==> svc.state == old(svc.state) && after == job
    ensures DriveRuns.IsRun(svc.cls, old(svc.state), steps) && AfterRun(svc.cls, old(svc.state), steps) == svc.state
    ensures Inv(old(svc.state)) && Sane(svc.cls) ==> Inv(svc.state)
  {
    steps, after := [], job;
    NoSteps(svc.cls, svc.state);
    ok := UploadJob.Done(job.mask, job.count);
    if !ok {
      return;
    }
    ghost var s := svc.state;
    AllLanded(svc.cls, s, f, job);
    OneStep(svc.cls, s, CompleteFile(f));
    hide *;
    steps := svc.Take(CompleteFile(f), s, steps);
    KeepsInv(svc.cls, s, steps);
    after := job.(status := JobComplete);
  }

  lemma AllLanded(cls: CharClasses, s: State, f: Id, job: Job)
    requires InStep(s, f, job) && AllSet(job.mask, job.count)
    ensures DriveSteps.Enabled(s, CompleteFile(f)) && Clean(cls, s, CompleteFile(f))
    ensures var t := Apply(cls, s, CompleteFile(f));
            && t.files == s.files[f := s.files[f].(status := Drive.Complete)] && t.segs == s.segs && t.msgs == s.msgs
            && Landed(t.segs, f, t.files[f].segmentCount)
  {
    hide MaskHas;
  }
}
