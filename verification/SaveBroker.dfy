/** The privileged save broker: save transactions over directories in which any operation
    may fail (app/MRPrivilegedFileBroker.cpp). */
module SaveBroker {
  import opened Basics

  /** A name in one of the opened directories. */
  datatype Path = Path(dir: nat, name: string)

  /** `stamp` stands for device, inode, size and times; two files with equal stamps pass
      for the same file. */
  datatype Node = Node(regular: bool, stamp: nat, content: string)

  type Files = map<Path, Node>

  /** A file the broker may save, as it was last seen. */
  datatype AuthorizedFile = AuthorizedFile(path: Path, baseline: nat)

  datatype Transaction = Transaction(file: Option<nat>, temporaryName: string, backupEnabled: bool)

  datatype Status = Ok | NotAuthorized | Busy | Stale | NotActive | Unknown | SystemError

  /** What the system answers while one request is served. A rename keeps the content and may
      change the stamp. */
  datatype Host = Host(stat: bool, create: nat -> bool, duplicate: bool, sync: bool, owner: bool,
                       dropBackup: bool, moveBackup: bool, install: bool, rollback: bool, reopen: bool,
                       unlink: bool, sent: bool, sourceStamp: nat, freshStamp: nat, renamed: nat -> nat)

  datatype Request =
    | AllowsPath(file: Option<nat>)
    | OpenReadOnly(file: Option<nat>)
    | BeginSave(file: Option<nat>, backup: bool)
    | CommitSave
    | AbortSave
    | UnknownOperation
    | Malformed

  datatype Event =
    | Ask(request: Request, host: Host)
    | Fill(content: string, stamp: nat)              // the editor writes the new content
    | Outside(path: Path, node: Option<Node>)        // another process changes a file

  // --------------------------------------------------------------------------------- names

  function LastDot(name: string): (k: int)
    ensures -1 <= k < |name| && (k >= 0 ==> name[k] == '.') && forall i | k < i < |name| :: name[i] != '.'
  {
    if name == "" then -1
    else if name[|name| - 1] == '.' then |name| - 1
    else LastDot(name[..|name| - 1])
  }

  /** A file name without its extension: a leading dot starts none, nor do "." and "..". */
  function Stem(name: string): (s: string)
    ensures s <= name
  {
    if name == "." || name == ".." || LastDot(name) <= 0 then name else name[..LastDot(name)]
  }

  function BackupName(name: string): string {
    var backup := Stem(name) + ".bak";
    if backup == name then name + ".bak" else backup
  }

  lemma BackupNameDiffers(name: string)
    ensures BackupName(name) != name
    ensures |BackupName(name)| >= 4 && BackupName(name)[|BackupName(name)| - 4..] == ".bak"
  {
    assert |name + ".bak"| != |name|;
    var backup := Stem(name) + ".bak";
    assert backup[|backup| - 4..] == ".bak" && (name + ".bak")[|name|..] == ".bak";
  }

  /** An extension is replaced by "bak", unless it is that already; without one, "bak" is added. */
  lemma BackupOf(stem: string, extension: string)
    requires '.' !in extension && stem != "" && '.' !in stem[1..] && (stem == "." ==> extension != "")
    ensures BackupName(stem + "." + extension) == if extension == "bak" then stem + ".bak.bak" else stem + ".bak"
    ensures BackupName(stem) == stem + ".bak"
  {
    var name := stem + "." + extension;
    assert name[|stem|] == '.' && forall i | |stem| < i < |name| :: name[i] != '.';
    assert LastDot(name) == |stem| && name[..|stem|] == stem;
    assert forall i | 1 <= i < |stem| :: stem[i] == stem[1..][i - 1];
    assert LastDot(stem) <= 0;
    if stem + ".bak" == name {
      assert extension == name[|stem| + 1..] == "bak";
    }
    if extension == "bak" { assert name == stem + ".bak" && name + ".bak" == stem + ".bak.bak"; }
    assert |stem + ".bak"| != |stem|;
  }

  function Backup(p: Path): Path { Path(p.dir, BackupName(p.name)) }

  function TemporaryName(process: nat, attempt: nat): (s: string)
    ensures s != ""
  {
    ".mr-save-" + Digits(process) + "-" + Digits(attempt)
  }

  ghost predicate IsTemporary(process: nat, name: string) {
    exists attempt: nat :: name == TemporaryName(process, attempt)
  }

  /** No backup is ever taken for a temporary file, nor overwrites one. */
  lemma TemporaryIsNoBackup(process: nat, attempt: nat, name: string)
    ensures TemporaryName(process, attempt) != BackupName(name)
  {
    BackupNameDiffers(name);
    var t, b := TemporaryName(process, attempt), BackupName(name);
    assert b[|b| - 1] == b[|b| - 4..][3] == 'k';
    assert '0' <= t[|t| - 1] <= '9';
  }

  // ------------------------------------------------------------------------------ one request

  /** Everything the broker holds: the directories, what it remembers of the authorized
      files, and the transaction. */
  datatype State = State(fs: Files, files: seq<AuthorizedFile>, tx: Transaction)
  {
    predicate Open() { tx.file.Some? }

    predicate InBounds() { Open() ==> tx.file.value < |files| }

    function Target(): AuthorizedFile
      requires Open() && InBounds()
    {
      files[tx.file.value]
    }

    function Temporary(): Path
      requires Open() && InBounds()
    {
      Path(Target().path.dir, tx.temporaryName)
    }
  }

  const NO_TRANSACTION := Transaction(None, "", false)

  /** The file is still the one the broker saw last. */
  predicate Matches(fs: Files, f: AuthorizedFile) {
    f.path in fs && fs[f.path].regular && fs[f.path].stamp == f.baseline
  }

  /** `clearSaveTransaction`: forget the transaction, and remove its temporary file unless a
      commit has used it up. */
  function Cleared(s: State, host: Host): State
    requires s.InBounds()
  {
    s.(tx := NO_TRANSACTION,
       fs := if s.Open() && s.tx.temporaryName != "" && host.unlink then s.fs - {s.Temporary()} else s.fs)
  }

  /** The first of a hundred temporary names that is free in the directory, or 100. */
  function FreeAttempt(process: nat, fs: Files, dir: nat, from: nat): (k: nat)
    requires from <= 100
    ensures from <= k <= 100 && (k < 100 ==> Path(dir, TemporaryName(process, k)) !in fs)
    ensures forall j | from <= j < k :: Path(dir, TemporaryName(process, j)) in fs
    decreases 100 - from
  {
    if from == 100 || Path(dir, TemporaryName(process, from)) !in fs then from
    else FreeAttempt(process, fs, dir, from + 1)
  }

  /** `createTemporaryFile`: the new file, if one can be created, and the last name tried. */
  function Created(process: nat, fs: Files, dir: nat, host: Host): (Files, string, bool) {
    var k := FreeAttempt(process, fs, dir, 0);
    if k == 100 then (fs, TemporaryName(process, 99), false)
    else
      var name := TemporaryName(process, k);
      if host.create(k) then (fs[Path(dir, name) := Node(true, host.freshStamp, "")], name, true) else (fs, name, false)
  }

  /** `beginSave`. */
  function Begun(process: nat, s: State, f: nat, backup: bool, host: Host): (State, Status)
    requires f < |s.files|
  {
    if s.Open() then (s, Busy)
    else if !host.stat || s.files[f].path !in s.fs then (s, SystemError)
    else if !Matches(s.fs, s.files[f]) then (s, Stale)
    else
      var (fs, name, created) := Created(process, s.fs, s.files[f].path.dir, host);
      if created then (s.(fs := fs, tx := Transaction(Some(f), name, backup)), Ok)
      else (s.(tx := s.tx.(temporaryName := name)), SystemError)
  }

  function Renamed(fs: Files, from: Path, to: Path, host: Host): Files
    requires from in fs && from != to
  {
    fs[to := fs[from].(stamp := host.renamed(fs[from].stamp))] - {from}
  }

  /** The renames of `commitSave`, and whether the last of them worked. */
  function Replaced(fs: Files, target: Path, temporary: Path, backup: bool, host: Host): (Files, bool)
    requires target in fs && temporary in fs && temporary != target && temporary != Backup(target)
  {
    BackupNameDiffers(target.name);
    if !backup then if host.install then (Renamed(fs, temporary, target, host), true) else (fs, false)
    else if !host.dropBackup then (fs, false)
    else
      var dropped := fs - {Backup(target)};
      if !host.moveBackup then (dropped, false)
      else
        var aside := Renamed(dropped, target, Backup(target), host);
        if host.install then (Renamed(aside, temporary, target, host), true)
        else if host.rollback then (Renamed(aside, Backup(target), target, host), false)
        else (aside, false)
  }

  /** A transaction in progress has its temporary file beside the target. */
  ghost predicate StateOk(process: nat, s: State) {
    && s.InBounds()
    && (s.Open() ==>
          && IsTemporary(process, s.tx.temporaryName)
          && s.Temporary() in s.fs && s.Temporary() != s.Target().path && s.Temporary() != Backup(s.Target().path))
  }

  /** `commitSave`; an empty temporary name says that the new content is in place. */
  function Committed(process: nat, s: State, host: Host): (State, Status)
    requires StateOk(process, s) && s.Open()
  {
    var f := s.Target();
    if !host.sync then (s, SystemError)
    else if !host.stat || !Matches(s.fs, f) then (s, Stale)
    else if !host.owner then (s, SystemError)
    else
      var (fs, installed) := Replaced(s.fs, f.path, s.Temporary(), s.tx.backupEnabled, host);
      if !installed then (s.(fs := fs), SystemError)
      else
        var done := s.(fs := fs, tx := s.tx.(temporaryName := ""));
        if !host.reopen || f.path !in fs || !fs[f.path].regular then (done, SystemError)
        else (done.(files := s.files[s.tx.file.value := f.(baseline := fs[f.path].stamp)]), Ok)
  }

  predicate InRange(request: Request, files: nat) {
    (request.AllowsPath? || request.OpenReadOnly? || request.BeginSave?) && request.file.Some? ==> request.file.value < files
  }

  /** One turn of the request loop in `serveBroker`. */
  function Handled(process: nat, s: State, request: Request, host: Host): (State, Status)
    requires StateOk(process, s) && InRange(request, |s.files|)
  {
    match request
    case AllowsPath(file) => (s, if file.Some? then Ok else NotAuthorized)
    case OpenReadOnly(file) =>
      if file.None? then (s, NotAuthorized)
      else if !host.stat then (s, SystemError)
      else (s.(files := s.files[file.value := s.files[file.value].(baseline := host.sourceStamp)]),
            if host.duplicate then Ok else SystemError)
    case BeginSave(file, backup) =>
      if file.None? then (s, NotAuthorized)
      else
        var (begun, status) := Begun(process, s, file.value, backup, host);
        if status == Ok && !host.duplicate then (Cleared(begun, host), SystemError) else (begun, status)
    case CommitSave =>
      if !s.Open() then (s, NotActive)
      else
        var (done, status) := Committed(process, s, host);
        (Cleared(done, host), status)
    case AbortSave => (Cleared(s, host), Ok)
    case UnknownOperation => (s, Unknown)
    case Malformed => (s, Ok)
  }

  // ------------------------------------------------------------------- what one request does

  /** Nothing but the given names differs. */
  ghost predicate SameBut(fs: Files, now: Files, names: set<Path>) {
    forall p | p !in names :: SameAt(fs, now, p)
  }

  ghost predicate SameAt(fs: Files, now: Files, p: Path) {
    (p in now <==> p in fs) && (p in fs ==> now[p] == fs[p])
  }

  /** The names a commit may alter besides its temporary file. */
  ghost function Altered(target: Path, backup: bool): set<Path> {
    if backup then {target, Backup(target)} else {target}
  }

  /** The new content is in place of the old, which a backup keeps under its own name. */
  ghost predicate Installed(fs: Files, now: Files, target: Path, temporary: Path, backup: bool)
    requires target in fs && temporary in fs
  {
    && SameBut(fs, now, Altered(target, backup) + {temporary})
    && temporary !in now && target in now && now[target].content == fs[temporary].content
    && now[target].regular == fs[temporary].regular
    && (backup ==> Backup(target) in now && now[Backup(target)].content == fs[target].content)
  }

  /** The target is as it was, up to its stamp, unless putting it back failed; an older
      backup may be gone. */
  ghost predicate NotInstalled(fs: Files, now: Files, target: Path, backup: bool, rollback: bool) {
    && SameBut(fs, now, if backup then Altered(target, true) else {})
    && (rollback && target in fs ==> target in now && now[target].content == fs[target].content)
  }

  lemma ReplacedWell(fs: Files, target: Path, temporary: Path, backup: bool, host: Host)
    requires target in fs && temporary in fs && temporary != target && temporary != Backup(target)
    ensures var (now, installed) := Replaced(fs, target, temporary, backup, host);
      if installed then Installed(fs, now, target, temporary, backup)
      else NotInstalled(fs, now, target, backup, host.rollback) && temporary in now && now[temporary] == fs[temporary]
  {
    BackupNameDiffers(target.name);
  }

  /** When the renames succeed, and what each failure leaves behind. */
  lemma ReplacedExactly(fs: Files, target: Path, temporary: Path, backup: bool, host: Host)
    requires target in fs && temporary in fs && temporary != target && temporary != Backup(target)
    ensures var (now, installed) := Replaced(fs, target, temporary, backup, host);
      && (installed <==> host.install && (backup ==> host.dropBackup && host.moveBackup))
      && (!installed && (backup ==> !host.dropBackup) ==> now == fs)
      && (!installed && backup && host.dropBackup && !host.moveBackup ==> now == fs - {Backup(target)})
      && (!installed && backup && host.dropBackup && host.moveBackup && host.rollback ==>
            Backup(target) !in now && target in now && now[target].content == fs[target].content)
      && (!installed && backup && host.dropBackup && host.moveBackup && !host.rollback ==>
            target !in now && Backup(target) in now && now[Backup(target)].content == fs[target].content)
  {
    BackupNameDiffers(target.name);
  }

  /** When a commit installs the new content, and the answer to every failure. */
  lemma CommittedExactly(process: nat, s: State, host: Host)
    requires StateOk(process, s) && s.Open()
    ensures var f, (t, status) := s.Target(), Committed(process, s, host);
      var matches := host.stat && f.path in s.fs && s.fs[f.path].regular && s.fs[f.path].stamp == f.baseline;
      var renamed := host.install && (s.tx.backupEnabled ==> host.dropBackup && host.moveBackup);
      && (f.path in s.fs && Installed(s.fs, t.fs, f.path, s.Temporary(), s.tx.backupEnabled) <==> host.sync && matches && host.owner && renamed)
      && status == (if !host.sync then SystemError else if !matches then Stale
                    else if host.owner && renamed && host.reopen && s.fs[s.Temporary()].regular then Ok else SystemError)
      && (!host.sync || !matches || !host.owner ==> t == s)
      && t.files == (if status == Ok then s.files[s.tx.file.value := f.(baseline := t.fs[f.path].stamp)] else s.files)
  {
    var f := s.Target();
    if f.path in s.fs {
      ReplacedWell(s.fs, f.path, s.Temporary(), s.tx.backupEnabled, host);
      ReplacedExactly(s.fs, f.path, s.Temporary(), s.tx.backupEnabled, host);
    }
  }

  /** A commit leaves a changed target alone, installs the new content or puts the old back,
      and afterwards remembers the target as it is. */
  lemma CommittedWell(process: nat, s: State, host: Host)
    requires StateOk(process, s) && s.Open()
    ensures var (t, status) := Committed(process, s, host);
      && t.tx == s.tx.(temporaryName := t.tx.temporaryName)
      && (!Matches(s.fs, s.Target()) ==> t == s && status != Ok)
      && (if t.tx.temporaryName == ""
          then Matches(s.fs, s.Target()) && Installed(s.fs, t.fs, s.Target().path, s.Temporary(), s.tx.backupEnabled)
          else t.tx == s.tx && status != Ok && NotInstalled(s.fs, t.fs, s.Target().path, s.tx.backupEnabled, host.rollback)
               && s.Temporary() in t.fs && t.fs[s.Temporary()] == s.fs[s.Temporary()])
      && (status == Ok <==> t.tx.temporaryName == "" && host.reopen && s.fs[s.Temporary()].regular)
      && (if status == Ok then Matches(t.fs, t.files[s.tx.file.value]) && t.files[s.tx.file.value].path == s.Target().path
                               && t.files == s.files[s.tx.file.value := t.files[s.tx.file.value]]
          else t.files == s.files)
  {
    if Matches(s.fs, s.Target()) {
      ReplacedWell(s.fs, s.Target().path, s.Temporary(), s.tx.backupEnabled, host);
    }
  }

  /** A transaction starts only on a target that matches and only if none is open, and adds
      one file under a new name. */
  lemma BegunWell(process: nat, s: State, f: nat, backup: bool, host: Host)
    requires StateOk(process, s) && f < |s.files|
    ensures var (t, status) := Begun(process, s, f, backup, host);
      && (s.Open() ==> status == Busy && t == s)
      && (status == Ok ==>
            && !s.Open() && Matches(s.fs, s.files[f]) && t.tx == Transaction(Some(f), t.tx.temporaryName, backup)
            && t.files == s.files && t.Temporary() !in s.fs && t.fs == s.fs[t.Temporary() := Node(true, host.freshStamp, "")])
      && (status != Ok ==> t.fs == s.fs && t.files == s.files && t.tx.file == s.tx.file)
      && StateOk(process, t)
  {
    if !s.Open() && s.files[f].path in s.fs {
      var k := FreeAttempt(process, s.fs, s.files[f].path.dir, 0);
      TemporaryIsNoBackup(process, k, s.files[f].path.name);
      assert IsTemporary(process, TemporaryName(process, k));
    }
  }

  /** When a transaction starts, under which name, and the answer to every refusal. */
  lemma BegunExactly(process: nat, s: State, f: nat, backup: bool, host: Host)
    requires StateOk(process, s) && f < |s.files|
    ensures var (t, status) := Begun(process, s, f, backup, host);
      var file, dir := s.files[f], s.files[f].path.dir;
      var seen := host.stat && file.path in s.fs;
      var matches := seen && s.fs[file.path].regular && s.fs[file.path].stamp == file.baseline;
      var k := FreeAttempt(process, s.fs, dir, 0);
      && status == (if s.Open() then Busy else if !seen then SystemError else if !matches then Stale
                    else if k < 100 && host.create(k) then Ok else SystemError)
      && (status == Ok ==> t.tx.temporaryName == ".mr-save-" + Digits(process) + "-" + Digits(k))
  {
  }

  /** The answers to the other requests, and what they change. */
  lemma HandledExactly(process: nat, s: State, request: Request, host: Host)
    requires StateOk(process, s) && InRange(request, |s.files|)
    ensures var (t, status) := Handled(process, s, request, host);
      match request
      case AllowsPath(file) => t == s && status == if file.Some? then Ok else NotAuthorized
      case OpenReadOnly(file) =>
        && t == s.(files := t.files) && |t.files| == |s.files|
        && (forall i | 0 <= i < |s.files| :: t.files[i].path == s.files[i].path && t.files[i].baseline ==
              if file == Some(i) && host.stat then host.sourceStamp else s.files[i].baseline)
        && status == if file.None? then NotAuthorized else if host.stat && host.duplicate then Ok else SystemError
      case BeginSave(file, backup) =>
        if file.None? then t == s && status == NotAuthorized
        else
          var begun := Begun(process, s, file.value, backup, host);
          && status == (if begun.1 == Ok && !host.duplicate then SystemError else begun.1)
          && (begun.1 == Ok && !host.duplicate ==> !t.Open() && t.files == s.files && (host.unlink ==> t.fs == s.fs))
          && (begun.1 != Ok || host.duplicate ==> t == begun.0)
      case CommitSave => if s.Open() then status == Committed(process, s, host).1 else t == s && status == NotActive
      case AbortSave => status == Ok && !t.Open() && t.files == s.files && (!s.Open() ==> t.fs == s.fs)
      case UnknownOperation => t == s && status == Unknown
      case Malformed => t == s
  {
    if request.BeginSave? && request.file.Some? {
      BegunWell(process, s, request.file.value, request.backup, host);
      var (t, status) := Begun(process, s, request.file.value, request.backup, host);
      if status == Ok { assert s.fs[t.Temporary() := Node(true, host.freshStamp, "")] - {t.Temporary()} == s.fs; }
    }
  }

  /** Everything a save needs works, and the file is still the one the broker saw. */
  ghost predicate Works(process: nat, s: State, f: nat, begin: Host, commit: Host)
    requires f < |s.files|
  {
    && !s.Open() && begin.stat && begin.duplicate && commit.sync && commit.stat && commit.owner && commit.install && commit.reopen
    && commit.dropBackup && commit.moveBackup
    && var file := s.files[f];
    && file.path in s.fs && s.fs[file.path].regular && s.fs[file.path].stamp == file.baseline
    && var k := FreeAttempt(process, s.fs, file.path.dir, 0);
    && k < 100 && begin.create(k) && !IsTemporary(process, file.path.name)
  }

  /** After abort, commit or refusal no transaction is open; its temporary file is still
      there exactly if it was not put in place and could not be removed. */
  lemma HandledEnds(process: nat, s: State, request: Request, host: Host)
    requires StateOk(process, s) && InRange(request, |s.files|) && s.Open() && (request.AbortSave? || request.CommitSave?)
    ensures var t := Handled(process, s, request, host).0;
      && !t.Open()
      && (s.Temporary() in t.fs <==>
            !host.unlink && (request.CommitSave? ==> Committed(process, s, host).0.tx.temporaryName != ""))
  {
    if request.CommitSave? { CommittedWell(process, s, host); }
  }

  /** Requests name authorized files, and other processes keep off names that look like the
      broker's temporary files. */
  ghost predicate EventOk(e: Event, files: nat, process: nat) {
    match e
    case Ask(request, _) => InRange(request, files)
    case Fill(_, _) => true
    case Outside(path, _) => !IsTemporary(process, path.name)
  }

  function Next(process: nat, s: State, e: Event): State
    requires StateOk(process, s) && EventOk(e, |s.files|, process)
  {
    match e
    case Ask(request, host) => Handled(process, s, request, host).0
    case Fill(content, stamp) =>
      if s.Open() then s.(fs := s.fs[s.Temporary() := s.fs[s.Temporary()].(content := content, stamp := stamp)]) else s
    case Outside(path, node) => s.(fs := if node.Some? then s.fs[path := node.value] else s.fs - {path})
  }

  /** The event is a commit that finds its target as the broker saw it, and may alter `p`. */
  ghost predicate CommitAlters(process: nat, s: State, e: Event, p: Path)
    requires s.InBounds()
  {
    && e.Ask? && e.request.CommitSave? && s.Open()
    && var f := s.Target();
    && f.path in s.fs && s.fs[f.path].regular && s.fs[f.path].stamp == f.baseline
    && (p == f.path || (s.tx.backupEnabled && p == Backup(f.path)))
  }

  /** The event leaves the temporary file `p` behind because it could not be removed: that of
      a transaction it ends without installing it, or that of one it has to give up at once. */
  ghost predicate Leaks(process: nat, s: State, e: Event, p: Path)
    requires StateOk(process, s) && EventOk(e, |s.files|, process)
  {
    && e.Ask? && !e.host.unlink
    && match e.request
       case AbortSave => s.Open() && p == s.Temporary()
       case CommitSave => s.Open() && p == s.Temporary() && Committed(process, s, e.host).0.tx.temporaryName != ""
       case BeginSave(file, backup) =>
         file.Some? && !e.host.duplicate && p !in s.fs && StartsWith(process, s, file.value, backup, e.host, p)
       case _ => false
  }

  /** The transaction starts with the temporary file `p`. */
  ghost predicate StartsWith(process: nat, s: State, f: nat, backup: bool, host: Host, p: Path)
    requires f < |s.files|
  {
    var (t, status) := Begun(process, s, f, backup, host);
    status == Ok && p == Path(s.files[f].path.dir, t.tx.temporaryName)
  }

  lemma NextOk(process: nat, s: State, e: Event)
    requires StateOk(process, s) && EventOk(e, |s.files|, process)
    ensures StateOk(process, Next(process, s, e)) && |Next(process, s, e).files| == |s.files|
  {
    if e.Ask? {
      if e.request.BeginSave? && e.request.file.Some? { BegunWell(process, s, e.request.file.value, e.request.backup, e.host); }
      if e.request.CommitSave? && s.Open() { CommittedWell(process, s, e.host); }
    }
  }

  /** A name that is not a temporary one changes only from outside or by a commit whose
      target matched. */
  lemma NextChanges(process: nat, s: State, e: Event, p: Path)
    requires StateOk(process, s) && EventOk(e, |s.files|, process) && !IsTemporary(process, p.name)
    ensures SameAt(s.fs, Next(process, s, e).fs, p) || CommitAlters(process, s, e, p) || (e.Outside? && e.path == p)
  {
    if e.Ask? {
      if e.request.BeginSave? && e.request.file.Some? { BegunWell(process, s, e.request.file.value, e.request.backup, e.host); }
      if e.request.CommitSave? && s.Open() { CommittedWell(process, s, e.host); }
    }
  }

  /** What explains that the temporary file `p` exists after the event. */
  ghost predicate Accounted(process: nat, s: State, e: Event, t: State, p: Path)
    requires StateOk(process, s) && EventOk(e, |s.files|, process) && t.InBounds()
  {
    || (t.Open() && p == t.Temporary())
    || (p in s.fs && !(s.Open() && p == s.Temporary()))
    || Leaks(process, s, e, p) || CommitAlters(process, s, e, p)
  }

  /** A temporary file that exists belongs to the transaction, or existed before, or could
      not be removed just now, or a commit has put something under its name. */
  lemma NextTemporaries(process: nat, s: State, e: Event, p: Path)
    requires StateOk(process, s) && EventOk(e, |s.files|, process) && IsTemporary(process, p.name)
    ensures var t := Next(process, s, e); t.InBounds() && (p in t.fs ==> Accounted(process, s, e, t, p))
  {
    NextOk(process, s, e);
    if e.Ask? {
      match e.request
      case BeginSave(_, _) => BeginTemporaries(process, s, e, p);
      case CommitSave => CommitTemporaries(process, s, e, p);
      case _ =>
    }
  }

  lemma BeginTemporaries(process: nat, s: State, e: Event, p: Path)
    requires StateOk(process, s) && EventOk(e, |s.files|, process) && e.Ask? && e.request.BeginSave?
    ensures var t := Next(process, s, e); t.InBounds() && (p in t.fs ==> Accounted(process, s, e, t, p))
  {
    NextOk(process, s, e);
    if e.request.file.Some? { BegunWell(process, s, e.request.file.value, e.request.backup, e.host); }
  }

  lemma CommitTemporaries(process: nat, s: State, e: Event, p: Path)
    requires StateOk(process, s) && EventOk(e, |s.files|, process) && e.Ask? && e.request.CommitSave?
    ensures var t := Next(process, s, e); t.InBounds() && (p in t.fs ==> Accounted(process, s, e, t, p))
  {
    NextOk(process, s, e);
    if s.Open() {
      CommittedWell(process, s, e.host);
      HandledEnds(process, s, e.request, e.host);
    }
  }

  // -------------------------------------------------------------------------------- whole runs

  ghost predicate EventsOk(events: seq<Event>, files: nat, process: nat) {
    forall k | 0 <= k < |events| :: EventOk(events[k], files, process)
  }

  function Run(process: nat, s: State, events: seq<Event>): (t: State)
    requires StateOk(process, s) && EventsOk(events, |s.files|, process)
    ensures StateOk(process, t) && |t.files| == |s.files|
    decreases |events|
  {
    if events == [] then s
    else
      var before := Run(process, s, events[..|events| - 1]);
      NextOk(process, before, events[|events| - 1]);
      Next(process, before, events[|events| - 1])
  }

  /** Event `k` of the run is one that may alter `p`. */
  ghost predicate AlteredAt(process: nat, s: State, events: seq<Event>, k: nat, p: Path)
    requires StateOk(process, s) && EventsOk(events, |s.files|, process)
  {
    k < |events| && CommitAlters(process, Run(process, s, events[..k]), events[k], p)
  }

  ghost predicate LeakedAt(process: nat, s: State, events: seq<Event>, k: nat, p: Path)
    requires StateOk(process, s) && EventsOk(events, |s.files|, process)
  {
    k < |events| && Leaks(process, Run(process, s, events[..k]), events[k], p)
  }

  ghost predicate ChangedOutside(events: seq<Event>, k: nat, p: Path) {
    k < |events| && events[k].Outside? && events[k].path == p
  }

  /** Over every stream of requests, every mix of failures and every change from outside: a
      file that differs at the end was changed from outside, or by a commit that found its
      target as the broker had seen it. */
  lemma {:induction false} FilesChangeOnlyByMatchingCommits(process: nat, s: State, events: seq<Event>, p: Path)
    requires StateOk(process, s) && EventsOk(events, |s.files|, process) && !IsTemporary(process, p.name)
    ensures SameAt(s.fs, Run(process, s, events).fs, p)
      || (exists k: nat :: AlteredAt(process, s, events, k, p)) || (exists k: nat :: ChangedOutside(events, k, p))
    decreases |events|
  {
    if events != [] {
      var n := |events| - 1;
      var front := events[..n];
      FilesChangeOnlyByMatchingCommits(process, s, front, p);
      NextChanges(process, Run(process, s, front), events[n], p);
      if k: nat :| AlteredAt(process, s, front, k, p) {
        assert front[..k] == events[..k];
        assert AlteredAt(process, s, events, k, p);
      } else if k: nat :| ChangedOutside(front, k, p) {
        assert ChangedOutside(events, k, p);
      } else if CommitAlters(process, Run(process, s, front), events[n], p) {
        assert AlteredAt(process, s, events, n, p);
      } else if events[n].Outside? && events[n].path == p {
        assert ChangedOutside(events, n, p);
      }
    }
  }

  /** Some event of the run explains a temporary file that is left. */
  ghost predicate Explained(process: nat, s: State, events: seq<Event>, p: Path)
    requires StateOk(process, s) && EventsOk(events, |s.files|, process)
  {
    (exists k: nat :: LeakedAt(process, s, events, k, p)) || (exists k: nat :: AlteredAt(process, s, events, k, p))
  }

  lemma StillExplained(process: nat, s: State, events: seq<Event>, p: Path)
    requires StateOk(process, s) && EventsOk(events, |s.files|, process) && events != []
    requires Explained(process, s, events[..|events| - 1], p)
    ensures Explained(process, s, events, p)
  {
    var front := events[..|events| - 1];
    if k: nat :| LeakedAt(process, s, front, k, p) {
      assert front[..k] == events[..k];
      assert LeakedAt(process, s, events, k, p);
    } else {
      var k: nat :| AlteredAt(process, s, front, k, p);
      assert front[..k] == events[..k];
      assert AlteredAt(process, s, events, k, p);
    }
  }

  lemma NowExplained(process: nat, s: State, events: seq<Event>, p: Path)
    requires StateOk(process, s) && EventsOk(events, |s.files|, process) && events != []
    requires var before := Run(process, s, events[..|events| - 1]);
      Leaks(process, before, events[|events| - 1], p) || CommitAlters(process, before, events[|events| - 1], p)
    ensures Explained(process, s, events, p)
  {
    var n := |events| - 1;
    assert LeakedAt(process, s, events, n, p) || AlteredAt(process, s, events, n, p);
  }

  /** Over every run from a closed transaction: a temporary file that exists is the open
      transaction's, was there before, could not be removed, or lies under a name that a
      commit altered. */
  lemma {:induction false} TemporariesAreAccountedFor(process: nat, s: State, events: seq<Event>, p: Path)
    requires StateOk(process, s) && EventsOk(events, |s.files|, process) && !s.Open() && IsTemporary(process, p.name)
    requires p in Run(process, s, events).fs
    ensures var t := Run(process, s, events);
      (t.Open() && p == t.Temporary()) || p in s.fs || Explained(process, s, events, p)
    decreases |events|
  {
    if events != [] {
      var n := |events| - 1;
      var before := Run(process, s, events[..n]);
      NextTemporaries(process, before, events[n], p);
      if Leaks(process, before, events[n], p) || CommitAlters(process, before, events[n], p) {
        NowExplained(process, s, events, p);
      } else if p in before.fs && !(before.Open() && p == before.Temporary()) {
        TemporariesAreAccountedFor(process, s, events[..n], p);
        if p !in s.fs { StillExplained(process, s, events, p); }
      }
    }
  }

  /** Clearing the transaction at the end of the stream changes nothing of that. */
  lemma FilesAtTheEnd(process: nat, s: State, events: seq<Event>, last: Host, p: Path)
    requires StateOk(process, s) && EventsOk(events, |s.files|, process) && !IsTemporary(process, p.name)
    ensures SameAt(s.fs, Cleared(Run(process, s, events), last).fs, p)
      || (exists k: nat :: AlteredAt(process, s, events, k, p)) || (exists k: nat :: ChangedOutside(events, k, p))
  {
    FilesChangeOnlyByMatchingCommits(process, s, events, p);
  }

  ghost predicate RemovalsWork(events: seq<Event>) {
    forall k | 0 <= k < |events| && events[k].Ask? :: events[k].host.unlink
  }

  /** At the end of the stream no transaction is open, and if removals work every temporary
      file that is left was there before or lies under a name that a commit altered. */
  lemma NoTemporaryRemains(process: nat, s: State, events: seq<Event>, last: Host, p: Path)
    requires StateOk(process, s) && EventsOk(events, |s.files|, process) && !s.Open() && IsTemporary(process, p.name)
    requires RemovalsWork(events) && last.unlink
    requires p in Cleared(Run(process, s, events), last).fs
    ensures p in s.fs || exists k: nat :: AlteredAt(process, s, events, k, p)
  {
    TemporariesAreAccountedFor(process, s, events, p);
  }

  lemma RunThree(process: nat, s: State, a: Event, b: Event, c: Event)
    requires StateOk(process, s) && EventOk(a, |s.files|, process) && EventOk(b, |s.files|, process) && EventOk(c, |s.files|, process)
    ensures EventsOk([a, b, c], |s.files|, process)
    ensures StateOk(process, Next(process, s, a)) && |Next(process, s, a).files| == |s.files|
    ensures StateOk(process, Next(process, Next(process, s, a), b)) && |Next(process, Next(process, s, a), b).files| == |s.files|
    ensures Run(process, s, [a, b, c]) == Next(process, Next(process, Next(process, s, a), b), c)
  {
    assert [a, b, c][..2] == [a, b] && [a, b][..1] == [a] && [a][..0] == [];
    assert [a, b, c][0] == a && [a, b, c][1] == b && [a, b, c][2] == c;
    NextOk(process, s, a);
    NextOk(process, Next(process, s, a), b);
    assert Run(process, s, [a]) == Next(process, s, a);
    assert Run(process, s, [a, b]) == Next(process, Next(process, s, a), b);
  }

  /** The state after a begin that works and the editor's writing. */
  lemma BegunAndFilled(process: nat, s: State, f: nat, backup: bool, content: string, stamp: nat, begin: Host, commit: Host)
    requires StateOk(process, s) && f < |s.files| && Works(process, s, f, begin, commit)
    ensures var t := Next(process, s, Ask(BeginSave(Some(f), backup), begin));
      && StateOk(process, t) && |t.files| == |s.files|
      && var u := Next(process, t, Fill(content, stamp));
      && u.Open() && u.InBounds() && u.tx.file == Some(f) && u.tx.backupEnabled == backup && u.files == s.files
      && u.Temporary() !in s.fs && u.fs == s.fs[u.Temporary() := Node(true, stamp, content)]
  {
    NextOk(process, s, Ask(BeginSave(Some(f), backup), begin));
    BegunWell(process, s, f, backup, begin);
    BegunExactly(process, s, f, backup, begin);
  }

  ghost predicate Saved(fs: Files, v: State, f: nat, path: Path, backup: bool, content: string)
    requires path in fs
  {
    && !v.Open() && path in v.fs && v.fs[path].content == content
    && SameBut(fs, v.fs, {path} + if backup then {Backup(path)} else {})
    && (backup ==> Backup(path) in v.fs && v.fs[Backup(path)].content == fs[path].content)
    && f < |v.files| && v.files[f].path == path && v.files[f].baseline == v.fs[path].stamp
  }

  lemma FilledThenCommitted(process: nat, s: State, u: State, f: nat, backup: bool, content: string, stamp: nat, begin: Host, commit: Host)
    requires f < |s.files| && Works(process, s, f, begin, commit) && StateOk(process, u)
    requires u.Open() && u.tx.file == Some(f) && u.tx.backupEnabled == backup && u.files == s.files
    requires u.Temporary() !in s.fs && u.fs == s.fs[u.Temporary() := Node(true, stamp, content)]
    ensures Saved(s.fs, Next(process, u, Ask(CommitSave, commit)), f, s.files[f].path, backup, content)
  {
    CommittedWell(process, u, commit);
    CommittedExactly(process, u, commit);
  }

  /** A whole save: begin, write, commit. The file has what was written, a backup what it had before, the temporary file
      is gone, no other file has changed, and the broker knows the file as it is. */
  lemma SavedAsWritten(process: nat, s: State, f: nat, backup: bool, content: string, stamp: nat, begin: Host, commit: Host)
    requires StateOk(process, s) && f < |s.files| && Works(process, s, f, begin, commit)
    ensures var events := [Ask(BeginSave(Some(f), backup), begin), Fill(content, stamp), Ask(CommitSave, commit)];
      && EventsOk(events, |s.files|, process)
      && Saved(s.fs, Run(process, s, events), f, s.files[f].path, backup, content)
  {
    var a, b, c := Ask(BeginSave(Some(f), backup), begin), Fill(content, stamp), Ask(CommitSave, commit);
    RunThree(process, s, a, b, c);
    BegunAndFilled(process, s, f, backup, content, stamp, begin, commit);
    FilledThenCommitted(process, s, Next(process, Next(process, s, a), b), f, backup, content, stamp, begin, commit);
  }

  // -------------------------------------------------------------------------------- the broker

  /** The answer to this request cannot be sent, which ends the broker. */
  predicate Stops(e: Event) { e.Ask? && !e.request.Malformed? && !e.host.sent }

  /** How many events are served: all up to and with the first that stops the broker. */
  function Served(events: seq<Event>): (n: nat)
    ensures n <= |events| && forall k | 0 <= k < n - 1 :: !Stops(events[k])
    ensures n < |events| ==> n > 0 && Stops(events[n - 1])
  {
    if events == [] then 0 else if Stops(events[0]) then 1 else 1 + Served(events[1..])
  }

  lemma ServedAll(events: seq<Event>)
    requires forall k | 0 <= k < |events| :: !Stops(events[k])
    ensures Served(events) == |events|
  {
  }

  lemma ServedUntil(events: seq<Event>, i: nat)
    requires i < |events| && Stops(events[i]) && forall k | 0 <= k < i :: !Stops(events[k])
    ensures Served(events) == i + 1
  {
  }

  class Broker {
    const process: nat
    var fs: Files
    var files: seq<AuthorizedFile>
    var tx: Transaction

    ghost function Value(): State
      reads this
    {
      State(fs, files, tx)
    }

    ghost predicate Valid()
      reads this
    {
      StateOk(process, Value())
    }

    constructor (process: nat, fs: Files, files: seq<AuthorizedFile>)
      ensures Valid() && Value() == State(fs, files, NO_TRANSACTION) && this.process == process
    {
      this.process, this.fs, this.files, tx := process, fs, files, NO_TRANSACTION;
    }

    method ClearSaveTransaction(removeTemporaryFile: bool, host: Host)
      requires Value().InBounds() && (tx.file.Some? && tx.temporaryName != "" ==> removeTemporaryFile)
      modifies this`fs, this`tx
      ensures Value() == Cleared(old(Value()), host)
    {
      if removeTemporaryFile && tx.file.Some? && tx.temporaryName != "" && host.unlink {
        fs := fs - {Path(files[tx.file.value].path.dir, tx.temporaryName)};
      }
      tx := NO_TRANSACTION;
    }

    method CreateTemporaryFile(dir: nat, host: Host) returns (created: bool)
      modifies this`fs, this`tx
      ensures tx == old(tx).(temporaryName := tx.temporaryName)
      ensures (fs, tx.temporaryName, created) == Created(process, old(fs), dir, host)
    {
      for k := 0 to 100
        invariant fs == old(fs) && tx == old(tx).(temporaryName := tx.temporaryName)
        invariant FreeAttempt(process, fs, dir, 0) == FreeAttempt(process, fs, dir, k)
        invariant k > 0 ==> tx.temporaryName == TemporaryName(process, k - 1)
      {
        var name := TemporaryName(process, k);
        tx := tx.(temporaryName := name);
        if Path(dir, name) !in fs {
          if !host.create(k) { return false; }
          fs := fs[Path(dir, name) := Node(true, host.freshStamp, "")];
          return true;
        }
      }
      return false;
    }

    method BeginSave(f: nat, backup: bool, host: Host) returns (status: Status)
      requires f < |files|
      modifies this`fs, this`tx
      ensures (Value(), status) == Begun(process, old(Value()), f, backup, host)
    {
      if tx.file.Some? { return Busy; }
      if !host.stat || files[f].path !in fs { return SystemError; }
      if !fs[files[f].path].regular || fs[files[f].path].stamp != files[f].baseline { return Stale; }
      var created := CreateTemporaryFile(files[f].path.dir, host);
      if !created { return SystemError; }
      tx := tx.(file := Some(f), backupEnabled := backup);
      return Ok;
    }

    method Rename(from: Path, to: Path, host: Host)
      requires from in fs && from != to
      modifies this`fs
      ensures fs == Renamed(old(fs), from, to, host)
    {
      fs := fs[to := fs[from].(stamp := host.renamed(fs[from].stamp))] - {from};
    }

    /** The renames of `commitSave`. */
    method Replace(target: Path, temporary: Path, backupEnabled: bool, host: Host) returns (installed: bool)
      requires target in fs && temporary in fs && temporary != target && temporary != Backup(target)
      modifies this`fs
      ensures (fs, installed) == Replaced(old(fs), target, temporary, backupEnabled, host)
    {
      BackupNameDiffers(target.name);
      if backupEnabled {
        if !host.dropBackup { return false; }
        fs := fs - {Backup(target)};
        if !host.moveBackup { return false; }
        Rename(target, Backup(target), host);
      }
      if !host.install {
        if backupEnabled && host.rollback { Rename(Backup(target), target, host); }
        return false;
      }
      Rename(temporary, target, host);
      return true;
    }

    method CommitSave(host: Host) returns (status: Status)
      requires Valid() && tx.file.Some?
      modifies this`fs, this`files, this`tx
      ensures (Value(), status) == Committed(process, old(Value()), host)
    {
      var i := tx.file.value;
      var f := files[i];
      if !host.sync { return SystemError; }
      if !host.stat || !Matches(fs, f) { return Stale; }
      if !host.owner { return SystemError; }
      ReplacedWell(fs, f.path, Value().Temporary(), tx.backupEnabled, host);
      var installed := Replace(f.path, Path(f.path.dir, tx.temporaryName), tx.backupEnabled, host);
      if !installed { return SystemError; }
      tx := tx.(temporaryName := "");
      if !host.reopen || !fs[f.path].regular { return SystemError; }
      files := files[i := f.(baseline := fs[f.path].stamp)];
      return Ok;
    }

    /** One request. The answer is the status; `answered` says whether it could be sent. */
    method Handle(request: Request, host: Host) returns (status: Status, answered: bool)
      requires Valid() && InRange(request, |files|)
      modifies this`fs, this`files, this`tx
      ensures (Value(), status) == Handled(process, old(Value()), request, host)
      ensures answered <==> request.Malformed? || host.sent
    {
      answered, status := host.sent, Ok;
      match request
      case AllowsPath(file) => status := if file.Some? then Ok else NotAuthorized;
      case OpenReadOnly(file) =>
        if file.None? { status := NotAuthorized; }
        else if !host.stat { status := SystemError; }
        else {
          files := files[file.value := files[file.value].(baseline := host.sourceStamp)];
          status := if host.duplicate then Ok else SystemError;
        }
      case BeginSave(file, backup) =>
        if file.None? { status := NotAuthorized; }
        else {
          status := BeginSave(file.value, backup, host);
          if status == Ok && !host.duplicate {
            ClearSaveTransaction(true, host);
            status := SystemError;
          }
        }
      case CommitSave =>
        if tx.file.None? { status := NotActive; }
        else {
          CommittedWell(process, Value(), host);
          status := CommitSave(host);
          ClearSaveTransaction(status != Ok, host);
        }
      case AbortSave => ClearSaveTransaction(true, host);
      case UnknownOperation => status := Unknown;
      case Malformed => answered := true;
    }

    /** `serveBroker`: until the editor hangs up (0) or cannot be answered (1). */
    method Serve(events: seq<Event>, last: Host) returns (code: nat)
      requires Valid() && EventsOk(events, |files|, process)
      modifies this`fs, this`files, this`tx
      ensures code == 1 <==> exists k :: 0 <= k < |events| && events[k].Ask? && !events[k].request.Malformed? && !events[k].host.sent
      ensures var t := Run(process, old(Value()), events[..Served(events)]);
        if code == 0 then Served(events) == |events| && Value() == Cleared(t, last) else code == 1 && Value() == t
    {
      for i := 0 to |events|
        invariant Valid() && |files| == |old(files)| && forall k | 0 <= k < i :: !Stops(events[k])
        invariant Value() == Run(process, old(Value()), events[..i])
      {
        assert events[..i + 1][..i] == events[..i];
        NextOk(process, Value(), events[i]);
        match events[i]
        case Ask(request, host) =>
          var status, answered := Handle(request, host);
          if !answered {
            ServedUntil(events, i);
            return 1;
          }
        case Fill(content, stamp) =>
          if tx.file.Some? {
            var temporary := Path(files[tx.file.value].path.dir, tx.temporaryName);
            fs := fs[temporary := fs[temporary].(content := content, stamp := stamp)];
          }
        case Outside(path, node) =>
          fs := if node.Some? then fs[path := node.value] else fs - {path};
      }
      ServedAll(events);
      ClearSaveTransaction(true, last);
      return 0;
    }
  }
}
