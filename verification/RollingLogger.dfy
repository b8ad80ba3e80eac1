/**
  The rolling log: proxy_agent_shared/src/rolling_logger.rs. A file is the sequence of what each `write_line`
  put into it, so that a write cut short by an error is an entry like any other. The folder holds the files
  whose names start with the logger's name.
 */
module RollingLogger {
  import opened Prelude
  import opened Text

  type Entry = seq<Byte>
  type File = seq<Entry>
  type Folder = map<string, File>

  const LINE_FEED: Entry := [10]

  function Size(f: File): nat {
    if f == [] then 0 else Size(f[..|f| - 1]) + |f[|f| - 1]|
  }

  /** The size of a file is the number of its bytes. */
  lemma {:induction false} SizeIsBytes(f: File)
    ensures Size(f) == |Flatten(f)|
  {
    if f != [] {
      var n := |f| - 1;
      SizeIsBytes(f[..n]);
      FlattenAppend(f[..n], f[n]);
      assert f == f[..n] + [f[n]];
    }
  }

  /** The archived files, oldest first. */
  ghost function Archives(d: Folder, current: string): seq<string> {
    KeysInOrder(d - {current})
  }

  function TextOf(d: Folder, names: seq<string>): seq<Entry>
    requires forall n | n in names :: n in d
  {
    if names == [] then [] else d[names[0]] + TextOf(d, names[1..])
  }

  /** Everything still in the folder: the archives from oldest to newest, then the current file. */
  ghost function Retained(d: Folder, current: string): seq<Entry> {
    TextOf(d, Archives(d, current)) + CurrentOf(d, current)
  }

  predicate IsSuffix<T(==)>(a: seq<T>, b: seq<T>) {
    |a| <= |b| && b[|b| - |a|..] == a
  }

  /** Before its last entry the file was under the limit; a file of one entry always was empty before. */
  predicate WithinLimit(f: File, max: nat) {
    |f| <= 1 || Size(f[..|f| - 1]) < max
  }

  /** The name sorts after every archive. */
  ghost predicate Newest(d: Folder, current: string, name: string) {
    name != current && forall n | n in d && n != current :: Before(n, name)
  }

  function Renamed(d: Folder, current: string, name: string): Folder
    requires current in d
  {
    (d - {current})[name := d[current]]
  }

  function CurrentOf(d: Folder, current: string): File {
    if current in d then d[current] else []
  }

  predicate SubFolder(e: Folder, d: Folder) {
    forall n | n in e :: n in d && e[n] == d[n]
  }

  /** Every archive of `e` is one of `d` unchanged, or the current file of `d` under its new name. */
  predicate Kept(d: Folder, e: Folder, current: string, stamp: string) {
    forall n | n in e && n != current ::
      if n == stamp then e[n] == CurrentOf(d, current) else n in d && e[n] == d[n]
  }

  /** The archives a roll that succeeds leaves: the newest `max - 1` of the old ones and the new one. */
  ghost function ArchivesAfter(d: Folder, current: string, stamp: string, max: nat): seq<string> {
    var names := Archives(d, current) + [stamp];
    names[Surplus(|names|, max)..]
  }

  /** How many of `count` files the deletion loop removes: all but `max - 1`, or all of them when `max` is 0. */
  function Surplus(count: nat, max: nat): (n: nat)
    ensures n <= count
  {
    if count < max then 0 else if max == 0 then count else count - max + 1
  }

  /** A roll keeps every archive while there is room and else exactly one less than the maximum, always the
      newest. */
  lemma RollKeepsNewest(d: Folder, current: string, stamp: string, max: nat)
    ensures var all, kept := Archives(d, current) + [stamp], ArchivesAfter(d, current, stamp, max);
            && IsSuffix(kept, all)
            && |kept| == if |all| < max then |all| else if max == 0 then 0 else max - 1
  {
  }

  // ---------- what each change of the folder does to the retained text ----------

  lemma ArchivesAre(d: Folder, current: string, names: seq<string>)
    requires Ascending(names) && forall n :: n in names <==> n in d && n != current
    ensures Archives(d, current) == names
  {
    AscendingKeysUnique(d - {current}, names, d - {current}, Archives(d, current));
  }

  lemma {:induction false} TextOfSame(d: Folder, e: Folder, names: seq<string>)
    requires forall n | n in names :: n in d && n in e && d[n] == e[n]
    ensures TextOf(d, names) == TextOf(e, names)
  {
    if names != [] { TextOfSame(d, e, names[1..]); }
  }

  lemma {:induction false} TextOfAppend(d: Folder, names: seq<string>, n: string)
    requires n in d && forall m | m in names :: m in d
    ensures TextOf(d, names + [n]) == TextOf(d, names) + d[n]
  {
    if names == [] {
      assert [n][1..] == [];
      assert names + [n] == [n];
    } else {
      TextOfAppend(d, names[1..], n);
      assert (names + [n])[1..] == names[1..] + [n];
    }
  }

  lemma RenameKeeps(d: Folder, current: string, name: string)
    requires current in d && Newest(d, current, name)
    ensures var e := Renamed(d, current, name);
            && Archives(e, current) == Archives(d, current) + [name]
            && Retained(e, current) == Retained(d, current)
            && Kept(d, e, current, name)
  {
    var e, names := Renamed(d, current, name), Archives(d, current);
    BeforeTotal(name, name);
    assert name !in names;
    forall i | 0 <= i < |names| ensures Before(names[i], name) { assert names[i] in d - {current}; }
    ArchivesAre(e, current, names + [name]);
    TextOfAppend(e, names, name);
    TextOfSame(d, e, names);
  }

  lemma KeptSelf(d: Folder, current: string, stamp: string)
    requires Newest(d, current, stamp)
    ensures stamp !in d && Kept(d, d, current, stamp)
  {
    BeforeTotal(stamp, stamp);
  }

  lemma KeptSub(d: Folder, e: Folder, f: Folder, current: string, stamp: string)
    requires Kept(d, e, current, stamp) && SubFolder(f, e)
    ensures Kept(d, f, current, stamp)
  {
  }

  lemma OpenKeeps(d: Folder, current: string)
    requires current !in d
    ensures Archives(d[current := []], current) == Archives(d, current)
    ensures Retained(d[current := []], current) == Retained(d, current)
  {
    var e, names := d[current := []], Archives(d, current);
    ArchivesAre(e, current, names);
    TextOfSame(d, e, names);
  }

  lemma WriteAppends(d: Folder, current: string, entry: Entry)
    requires current in d
    ensures var e := d[current := d[current] + [entry]];
            && Archives(e, current) == Archives(d, current)
            && Retained(e, current) == Retained(d, current) + [entry]
  {
    var e, names := d[current := d[current] + [entry]], Archives(d, current);
    ArchivesAre(e, current, names);
    TextOfSame(d, e, names);
  }

  lemma RemoveOldest(d: Folder, current: string)
    requires current !in d && Archives(d, current) != []
    ensures var names := Archives(d, current);
            && names[0] in d
            && Archives(d - {names[0]}, current) == names[1..]
            && Retained(d, current) == d[names[0]] + Retained(d - {names[0]}, current)
  {
    var names := Archives(d, current);
    var e := d - {names[0]};
    assert names[0] in d - {current};
    BeforeTotal(names[0], names[0]);
    assert names[0] !in names[1..];
    assert names == [names[0]] + names[1..];
    forall n ensures n in names[1..] <==> n in e && n != current {
      assert n in names <==> n in d - {current};
    }
    ArchivesAre(e, current, names[1..]);
    TextOfSame(d, e, names[1..]);
  }

  /** An archive list names each file once. */
  lemma {:induction false} NamesCount(names: seq<string>, keys: set<string>)
    requires Ascending(names) && forall n :: n in names <==> n in keys
    ensures |names| == |keys|
  {
    if names == [] {
      assert keys == {};
    } else {
      BeforeTotal(names[0], names[0]);
      assert names == [names[0]] + names[1..];
      assert names[0] !in names[1..];
      NamesCount(names[1..], keys - {names[0]});
    }
  }

  lemma FolderCount(d: Folder, current: string)
    ensures |d| == |Archives(d, current)| + (if current in d then 1 else 0)
  {
    var names := Archives(d, current);
    assert forall n :: n in names <==> n in d - {current};
    NamesCount(names, (d - {current}).Keys);
    assert (d - {current}).Keys == d.Keys - {current};
  }

  lemma SuffixOfSuffix<T>(a: seq<T>, b: seq<T>, c: seq<T>)
    requires IsSuffix(a + b, c)
    ensures IsSuffix(b, c)
  {
    assert c[|c| - |b|..] == c[|c| - |a + b|..][|a|..];
    assert (a + b)[|a|..] == b;
  }

  lemma SuffixGrows<T>(a: seq<T>, b: seq<T>, x: T)
    requires IsSuffix(a, b)
    ensures IsSuffix(a + [x], b + [x])
  {
  }

  // ---------- the object ----------

  /** What the file system answers to one call: `failsAt` is the number of the removal that fails, if one
      does, and `accepts` how many bytes the file takes before a write fails. */
  datatype Answers =
    Answers(opens: bool, sizes: bool, renames: bool, lists: bool, failsAt: Option<nat>, accepts: nat)

  /** The first `n` removals succeed. */
  predicate Removes(failsAt: Option<nat>, n: nat) {
    failsAt == None || n <= failsAt.value
  }

  /** What a write cut short leaves in the file. */
  function Taken(message: Entry, accepts: nat): (e: Entry)
    ensures e <= message
  {
    if accepts <= |message| then message[..accepts] else message
  }

  predicate NoFault(a: Answers, line: nat) {
    a.opens && a.sizes && a.renames && a.lists && a.failsAt == None && a.accepts >= line
  }

  datatype Op = Write(message: Entry, stamp: string, answers: Answers) | Restart(opens: bool)

  /** Archive names increase from one write to the next. */
  predicate Stamped(ops: seq<Op>, current: string) {
    && (forall i | 0 <= i < |ops| && ops[i].Write? :: ops[i].stamp != current)
    && (forall i, j | 0 <= i < j < |ops| && ops[i].Write? && ops[j].Write? :: Before(ops[i].stamp, ops[j].stamp))
  }

  /** Every archive is older than every write from `i` on. */
  predicate Older(d: Folder, current: string, ops: seq<Op>, i: nat) {
    forall n, j | n in d && n != current && i <= j < |ops| && ops[j].Write? :: Before(n, ops[j].stamp)
  }

  /** No operation meets a failure. */
  predicate Works(op: Op) {
    match op
    case Restart(opens) => opens
    case Write(message, _, a) => NoFault(a, |message| + 1)
  }

  predicate Working(ops: seq<Op>) {
    forall i | 0 <= i < |ops| :: Works(ops[i])
  }

  function LineOf(op: Op): seq<Entry> {
    match op case Restart(_) => [] case Write(message, _, _) => [message + LINE_FEED]
  }

  predicate NoRestart(ops: seq<Op>) {
    forall i | 0 <= i < |ops| :: ops[i].Write?
  }

  function Lines(ops: seq<Op>): seq<Entry> {
    if ops == [] then []
    else
      var n := |ops| - 1;
      Lines(ops[..n]) + LineOf(ops[n])
  }

  lemma OlderAfter(d: Folder, e: Folder, current: string, ops: seq<Op>, i: nat)
    requires i < |ops| && Stamped(ops, current) && Older(d, current, ops, i)
    requires forall n | n in e && n != current :: n in d || (ops[i].Write? && n == ops[i].stamp)
    ensures Older(e, current, ops, i + 1)
  {
  }

  /** The condition under which a write takes the current file away and leaves none: the rename of a full file
      succeeds and a later part of the roll fails. */
  ghost predicate Wedges(d: Folder, current: string, maxSize: nat, maxCount: nat, a: Answers) {
    && current in d && Size(d[current]) >= maxSize && a.sizes && a.renames
    && !(a.lists && a.opens && Removes(a.failsAt, Surplus(|Archives(d, current)| + 1, maxCount)))
  }

  class RollingLogger {
    const current: string
    const maxSize: nat
    const maxCount: nat
    var folder: Folder
    var initialized: bool
    /** The file the open handle writes to; a handle follows its file when the file is renamed. */
    var writer: string
    /** Everything any call wrote, from the first one on. */
    ghost var history: seq<Entry>

    ghost predicate Valid()
      reads this
    {
      && IsSuffix(Retained(folder, current), history)
      && (forall n | n in folder :: WithinLimit(folder[n], maxSize))
      && (initialized && current in folder ==> writer == current)
    }

    /** A logger over an empty folder; `create_new` also opens the first file, which `Reopen` does. */
    constructor (name: string, size: nat, count: nat)
      ensures Valid() && current == name && maxSize == size && maxCount == count
      ensures folder == map[] && history == [] && !initialized
    {
      current, maxSize, maxCount := name, size, count;
      folder, initialized, writer, history := map[], false, name, [];
      new;
      ArchivesAre(folder, current, []);
    }

    /** `open_file`: the existing file is appended to. */
    method OpenFile(opens: bool) returns (ok: bool)
      requires Valid()
      modifies this`folder, this`writer
      ensures Valid() && ok == opens
      ensures folder == if opens && current !in old(folder) then old(folder)[current := []] else old(folder)
      ensures Archives(folder, current) == Archives(old(folder), current)
      ensures ok ==> writer == current
      ensures !ok ==> writer == old(writer)
    {
      if !opens { return false; }
      if current !in folder {
        OpenKeeps(folder, current);
        folder := folder[current := []];
      }
      writer := current;
      return true;
    }

    method Init(opens: bool) returns (ok: bool)
      requires Valid()
      modifies this`folder, this`writer, this`initialized
      ensures Valid() && ok == (old(initialized) || opens) && initialized == ok
      ensures folder == if !old(initialized) && opens && current !in old(folder)
                        then old(folder)[current := []] else old(folder)
      ensures Archives(folder, current) == Archives(old(folder), current)
    {
      if !initialized {
        ok := OpenFile(opens);
        if !ok { return false; }
        initialized := true;
      }
      return true;
    }

    /** The process starts again and creates its logger over the folder as it is. */
    method Reopen(opens: bool) returns (ok: bool)
      requires Valid()
      modifies this`folder, this`writer, this`initialized
      ensures Valid() && ok == opens && initialized == ok
      ensures Archives(folder, current) == Archives(old(folder), current)
      ensures ok ==> current in folder
      ensures forall n | n in folder && n != current :: n in old(folder)
    {
      initialized := false;
      ok := Init(opens);
    }

    /** `get_log_files` */
    method GetLogFiles() returns (names: seq<string>)
      ensures names == KeysInOrder(folder)
    {
      names := SortedKeys(folder);
    }

    method RemoveFile(name: string)
      requires Valid() && current !in folder
      requires Archives(folder, current) != [] && name == Archives(folder, current)[0]
      modifies this`folder
      ensures Valid() && folder == old(folder) - {name}
      ensures Archives(folder, current) == Archives(old(folder), current)[1..]
    {
      RemoveOldest(folder, current);
      SuffixOfSuffix(folder[name], Retained(folder - {name}, current), history);
      folder := folder - {name};
    }

    /** The counting loop: removes the oldest files until `max - 1` are left, or one cannot be removed. */
    method DeleteOldest(logFiles: seq<string>, failsAt: Option<nat>) returns (ok: bool)
      requires Valid() && current !in folder && logFiles == Archives(folder, current)
      modifies this`folder
      ensures Valid() && SubFolder(folder, old(folder))
      ensures ok == Removes(failsAt, Surplus(|logFiles|, maxCount))
      ensures Archives(folder, current) == logFiles[if ok then Surplus(|logFiles|, maxCount) else failsAt.value..]
    {
      var fileCount := |logFiles|;
      if fileCount < maxCount { return true; }
      var count := maxCount;
      var i := 0;
      while i < fileCount
        invariant 0 <= i <= Surplus(fileCount, maxCount) && count == maxCount + i && Removes(failsAt, i)
        invariant i == Surplus(fileCount, maxCount) ==> i == fileCount
        invariant Valid() && SubFolder(folder, old(folder))
        invariant Archives(folder, current) == logFiles[i..]
        decreases fileCount - i
      {
        if failsAt == Some(i) { return false; }
        RemoveFile(logFiles[i]);
        assert logFiles[i..][1..] == logFiles[i + 1..];
        i := i + 1;
        count := count + 1;
        if count > fileCount { break; }
      }
      return true;
    }

    /** `fs::rename` of the current file, which the open handle follows. */
    method RenameCurrent(stamp: string)
      requires Valid() && current in folder && Newest(folder, current, stamp)
      modifies this`folder, this`writer
      ensures Valid() && current !in folder && Kept(old(folder), folder, current, stamp)
      ensures Archives(folder, current) == KeysInOrder(folder) == Archives(old(folder), current) + [stamp]
    {
      RenameKeeps(folder, current, stamp);
      folder := Renamed(folder, current, stamp);
      if writer == current { writer := stamp; }
      assert folder - {current} == folder;
    }

    method ArchiveFile(stamp: string, a: Answers) returns (ok: bool)
      requires Valid() && current in folder && Newest(folder, current, stamp)
      modifies this`folder, this`writer
      ensures Valid()
      ensures !a.renames ==> !ok && folder == old(folder) && writer == old(writer)
      ensures a.renames ==> current !in folder
      ensures Kept(old(folder), folder, current, stamp)
      ensures ok == (a.renames && a.lists
                     && Removes(a.failsAt, Surplus(|Archives(old(folder), current)| + 1, maxCount)))
      ensures ok ==> Archives(folder, current) == ArchivesAfter(old(folder), current, stamp, maxCount)
    {
      KeptSelf(folder, current, stamp);
      if !a.renames { return false; }
      RenameCurrent(stamp);
      if !a.lists { return false; }
      var logFiles := GetLogFiles();
      ghost var renamed := folder;
      ok := DeleteOldest(logFiles, a.failsAt);
      KeptSub(old(folder), renamed, folder, current, stamp);
    }

    /** The branch of `roll_if_needed` that rolls: the newest `max - 1` archives are left beside an empty
        current file. */
    method Roll(stamp: string, a: Answers) returns (ok: bool)
      requires Valid() && initialized && current in folder && Newest(folder, current, stamp)
      modifies this`folder, this`writer
      ensures Valid()
      ensures ok == (a.renames && a.lists && a.opens
                     && Removes(a.failsAt, Surplus(|Archives(old(folder), current)| + 1, maxCount)))
      ensures ok ==> Archives(folder, current) == ArchivesAfter(old(folder), current, stamp, maxCount)
      ensures ok ==> current in folder && folder[current] == []
      ensures !ok ==> (current !in folder <==> a.renames)
      ensures ok ==> |folder| <= if maxCount == 0 then 1 else maxCount
      ensures Kept(old(folder), folder, current, stamp)
    {
      ok := ArchiveFile(stamp, a);
      if !ok { return; }
      ok := OpenFile(a.opens);
      FolderCount(folder, current);
    }

    method RollIfNeeded(stamp: string, a: Answers) returns (ok: bool, ghost rolled: bool)
      requires Valid() && Newest(folder, current, stamp)
      modifies this`folder, this`writer, this`initialized
      ensures Valid()
      ensures ok ==> initialized && current in folder && (folder[current] == [] || Size(folder[current]) < maxSize)
      ensures rolled ==> ok && |folder| <= if maxCount == 0 then 1 else maxCount
      ensures ok ==> folder[current] == if rolled then [] else CurrentOf(old(folder), current)
      ensures ok ==> Archives(folder, current) == if rolled then ArchivesAfter(old(folder), current, stamp, maxCount)
                                                  else Archives(old(folder), current)
      ensures Kept(old(folder), folder, current, stamp)
      ensures old(initialized) && current !in old(folder) ==> !ok && initialized && folder == old(folder)
      ensures NoFault(a, 0) && (old(initialized) ==> current in old(folder)) ==> ok
      ensures old(initialized) && current in old(folder) ==>
                (current !in folder <==> Wedges(old(folder), current, maxSize, maxCount, a))
      ensures ok ==> rolled == (Size(CurrentOf(old(folder), current)) >= maxSize)
    {
      rolled := false;
      KeptSelf(folder, current, stamp);
      ok := Init(a.opens);
      if !ok { return; }
      if !a.sizes || current !in folder { return false, rolled; }
      var fileLength := Size(folder[current]);
      if fileLength >= maxSize {
        ok := Roll(stamp, a);
        rolled := ok;
      }
    }

    /** `write_all` through the open handle, which is that of the current file. */
    method Append(entry: Entry)
      requires Valid() && initialized && current in folder
      requires folder[current] == [] || Size(folder[current]) < maxSize
      modifies this`folder, this`history
      ensures Valid() && folder == old(folder)[current := old(folder)[current] + [entry]]
      ensures folder.Keys == old(folder).Keys && |folder| == |old(folder)|
      ensures Archives(folder, current) == Archives(old(folder), current)
      ensures history == old(history) + [entry]
    {
      WriteAppends(folder, current, entry);
      SuffixGrows(Retained(folder, current), history, entry);
      var grown := folder[writer] + [entry];
      assert grown[..|grown| - 1] == folder[current];
      folder := folder[writer := grown];
      history := history + [entry];
    }

    method WriteLine(message: Entry, stamp: string, a: Answers) returns (ok: bool, ghost rolled: bool)
      requires Valid() && Newest(folder, current, stamp)
      modifies this
      ensures Valid()
      ensures ok ==> history == old(history) + [message + LINE_FEED]
      ensures ok ==> && initialized && current in folder
                     && rolled == (Size(CurrentOf(old(folder), current)) >= maxSize)
                     && folder[current] == (if rolled then [] else CurrentOf(old(folder), current))
                                           + [message + LINE_FEED]
      ensures ok ==> Archives(folder, current) == if rolled then ArchivesAfter(old(folder), current, stamp, maxCount)
                                                  else Archives(old(folder), current)
      ensures !ok ==> history == old(history) || history == old(history) + [Taken(message, a.accepts)]
      ensures rolled ==> |folder| <= if maxCount == 0 then 1 else maxCount
      ensures old(initialized) && current !in old(folder)
              ==> !ok && folder == old(folder) && history == old(history) && initialized
      ensures old(initialized) && current in old(folder) ==>
                (current !in folder <==> Wedges(old(folder), current, maxSize, maxCount, a))
      ensures NoFault(a, |message| + 1) && (old(initialized) ==> current in old(folder)) ==> ok
      ensures Kept(old(folder), folder, current, stamp)
    {
      ok, rolled := RollIfNeeded(stamp, a);
      if !ok { return; }
      ok := a.accepts > |message|;
      var entry := if ok then message + LINE_FEED else Taken(message, a.accepts);
      Append(entry);
    }

    /** One write or restart. */
    method Do(op: Op)
      requires Valid() && (op.Write? ==> Newest(folder, current, op.stamp))
      modifies this
      ensures Valid()
      ensures forall n | n in folder && n != current :: n in old(folder) || (op.Write? && n == op.stamp)
      ensures Works(op) && (op.Restart? || (old(initialized) && current in old(folder))) ==>
                history == old(history) + LineOf(op) && initialized && current in folder
      ensures old(initialized) && current !in old(folder) && op.Write? ==>
                folder == old(folder) && history == old(history) && initialized
    {
      match op {
        case Restart(opens) =>
          var _ := Reopen(opens);
        case Write(message, stamp, a) =>
          var _, _ := WriteLine(message, stamp, a);
      }
    }

    /** A whole run of writes and restarts: whatever fails, `Valid` holds at the end, so what is retained is a
        suffix of what was written. Without failures that is every line; and a logger whose current file is
        gone writes nothing more until it is restarted. */
    method Run(ops: seq<Op>)
      requires Valid() && Stamped(ops, current) && Older(folder, current, ops, 0)
      modifies this
      ensures Valid()
      ensures Working(ops) && |ops| > 0 && ops[0].Restart? ==> history == old(history) + Lines(ops)
      ensures old(initialized) && current !in old(folder) && NoRestart(ops)
              ==> folder == old(folder) && history == old(history)
    {
      ghost var works := Working(ops) && |ops| > 0 && ops[0].Restart?;
      ghost var wedged := old(initialized) && current !in old(folder) && NoRestart(ops);
      ghost var written: seq<Entry> := [];
      assert ops[..0] == [];
      for i := 0 to |ops|
        invariant Valid() && Older(folder, current, ops, i) && written == Lines(ops[..i])
        invariant works ==> history == old(history) + written && (i > 0 ==> initialized && current in folder)
        invariant wedged ==> initialized && folder == old(folder) && history == old(history)
      {
        ghost var before := folder;
        NewestAt(folder, current, ops, i);
        assert works ==> Works(ops[i]);
        Do(ops[i]);
        LinesGrow(ops, i);
        Associates(old(history), written, LineOf(ops[i]));
        written := written + LineOf(ops[i]);
        OlderAfter(before, folder, current, ops, i);
      }
      assert ops[..|ops|] == ops;
    }
  }

  lemma NewestAt(d: Folder, current: string, ops: seq<Op>, i: nat)
    requires i < |ops| && Stamped(ops, current) && Older(d, current, ops, i)
    ensures ops[i].Write? ==> Newest(d, current, ops[i].stamp)
  {
  }

  lemma LinesGrow(ops: seq<Op>, i: nat)
    requires i < |ops|
    ensures Lines(ops[..i + 1]) == Lines(ops[..i]) + LineOf(ops[i])
  {
    assert ops[..i + 1][..i] == ops[..i];
  }
}
