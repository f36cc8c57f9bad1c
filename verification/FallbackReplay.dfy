/**
 Replay of the audit fallback file at start-up. The file is a list of lines, the
 database accepts or refuses each entry, and the file system may refuse the temporary
 file, any write to it, the rename or the truncation.
 */
module FallbackReplay {
  import opened Wrappers
  import opened AuditQueue

  datatype Line = Blank | Garbage(text: string) | Json(entry: AuditEntry)

  /** What the environment does during one replay. stores(i) is the database's answer to parsed entry i. */
  datatype Environment = Environment(
    opens: bool,
    scans: bool,
    stores: nat -> bool,
    opensTmp: bool,
    writesTmp: nat -> bool,
    renames: bool,
    truncates: bool)

  function Parsed(lines: seq<Line>): seq<AuditEntry> {
    if lines == [] then []
    else if lines[|lines| - 1].Json? then Parsed(lines[..|lines| - 1]) + [lines[|lines| - 1].entry]
    else Parsed(lines[..|lines| - 1])
  }

  /** The first n parsed entries that the database took, or that it refused, in file order. */
  function Answered(entries: seq<AuditEntry>, stores: nat -> bool, answer: bool, n: nat): seq<AuditEntry>
    requires n <= |entries|
  {
    if n == 0 then []
    else if stores(n - 1) == answer then Answered(entries, stores, answer, n - 1) + [entries[n - 1]]
    else Answered(entries, stores, answer, n - 1)
  }

  function Recovered(entries: seq<AuditEntry>, env: Environment): seq<AuditEntry> {
    Answered(entries, env.stores, true, |entries|)
  }

  function Failing(entries: seq<AuditEntry>, env: Environment): seq<AuditEntry> {
    Answered(entries, env.stores, false, |entries|)
  }

  /** The temporary file after writing the first n failing entries; a failed write goes unnoticed. */
  function TmpLines(failing: seq<AuditEntry>, writes: nat -> bool, n: nat): seq<Line>
    requires n <= |failing|
  {
    if n == 0 then []
    else if writes(n - 1) then TmpLines(failing, writes, n - 1) + [Json(failing[n - 1])]
    else TmpLines(failing, writes, n - 1)
  }

  /** The file is read and at least one entry is parsed. */
  predicate Replays(file: Option<seq<Line>>, env: Environment) {
    file.Some? && env.opens && env.scans && Parsed(file.value) != []
  }

  /** The entries this replay hands to the database and has accepted there. */
  function ReplayStored(file: Option<seq<Line>>, env: Environment): seq<AuditEntry> {
    if Replays(file, env) then Recovered(Parsed(file.value), env) else []
  }

  /** The file after the replay. */
  function ReplayFile(file: Option<seq<Line>>, env: Environment): Option<seq<Line>> {
    if file.None? || !env.opens || !env.scans then file
    else
      var failing := Failing(Parsed(file.value), env);
      if failing == [] then (if env.truncates then Some([]) else file)
      else if env.opensTmp && env.renames then Some(TmpLines(failing, env.writesTmp, |failing|))
      else file
  }

  // ---------------------------------------------------------------- partition

  lemma {:induction false} AnsweredPartition(entries: seq<AuditEntry>, stores: nat -> bool, n: nat)
    requires n <= |entries|
    ensures var yes, no := Answered(entries, stores, true, n), Answered(entries, stores, false, n);
            |yes| + |no| == n && multiset(entries[..n]) == multiset(yes) + multiset(no)
  {
    if n > 0 {
      AnsweredPartition(entries, stores, n - 1);
      var yes, no, e := Answered(entries, stores, true, n - 1), Answered(entries, stores, false, n - 1), entries[n - 1];
      assert entries[..n] == entries[..n - 1] + [e];
      if stores(n - 1) {
        assert Answered(entries, stores, true, n) == yes + [e] && Answered(entries, stores, false, n) == no;
      } else {
        assert Answered(entries, stores, true, n) == yes && Answered(entries, stores, false, n) == no + [e];
      }
      OneMoreAnswer(entries[..n - 1], yes, no, e);
    }
  }

  lemma OneMoreAnswer(all: seq<AuditEntry>, yes: seq<AuditEntry>, no: seq<AuditEntry>, e: AuditEntry)
    requires multiset(all) == multiset(yes) + multiset(no)
    ensures multiset(all + [e]) == multiset(yes + [e]) + multiset(no) == multiset(yes) + multiset(no + [e])
  {}

  /** Recovered and failing entries partition the parsed ones. */
  lemma ReplayPartition(entries: seq<AuditEntry>, env: Environment)
    ensures |Recovered(entries, env)| + |Failing(entries, env)| == |entries|
    ensures multiset(entries) == multiset(Recovered(entries, env)) + multiset(Failing(entries, env))
  {
    AnsweredPartition(entries, env.stores, |entries|);
    assert entries[..|entries|] == entries;
  }

  /** The failing entries are those the database refused, at increasing positions of the file. */
  lemma {:induction false} FailingKeepsOrder(entries: seq<AuditEntry>, stores: nat -> bool, n: nat) returns (at: seq<nat>)
    requires n <= |entries|
    ensures var no := Answered(entries, stores, false, n);
            && |at| == |no|
            && (forall k | 0 <= k < |at| :: at[k] < n && !stores(at[k]) && no[k] == entries[at[k]])
            && (forall j, k | 0 <= j < k < |at| :: at[j] < at[k])
            && (forall i: nat | i < n && !stores(i) :: i in at)
  {
    at := [];
    if n > 0 {
      var before := FailingKeepsOrder(entries, stores, n - 1);
      at := before + (if stores(n - 1) then [] else [n - 1]);
    }
  }

  // -------------------------------------------------------- what the file holds

  lemma ParsedAppend(lines: seq<Line>, line: Line)
    ensures Parsed(lines + [line]) == if line.Json? then Parsed(lines) + [line.entry] else Parsed(lines)
  {
    assert (lines + [line])[..|lines|] == lines;
  }

  predicate WrittenTo(writes: nat -> bool, n: nat) {
    forall i: nat | i < n :: writes(i)
  }

  /** The first n writes leave at most n entries, and exactly the first n when none failed. */
  lemma {:induction false} TmpHolds(failing: seq<AuditEntry>, writes: nat -> bool, n: nat)
    requires n <= |failing|
    ensures |Parsed(TmpLines(failing, writes, n))| <= n
    ensures WrittenTo(writes, n) ==> Parsed(TmpLines(failing, writes, n)) == failing[..n]
    ensures !WrittenTo(writes, n) ==> |Parsed(TmpLines(failing, writes, n))| < n
  {
    if n > 0 {
      TmpHolds(failing, writes, n - 1);
      var before := TmpLines(failing, writes, n - 1);
      assert WrittenTo(writes, n) <==> WrittenTo(writes, n - 1) && writes(n - 1);
      if writes(n - 1) {
        assert TmpLines(failing, writes, n) == before + [Json(failing[n - 1])];
        ParsedAppend(before, Json(failing[n - 1]));
        assert failing[..n] == failing[..n - 1] + [failing[n - 1]];
      } else {
        assert TmpLines(failing, writes, n) == before;
      }
    }
  }

  lemma {:induction false} TmpIsJson(failing: seq<AuditEntry>, writes: nat -> bool, n: nat)
    requires n <= |failing|
    ensures forall line | line in TmpLines(failing, writes, n) :: line.Json?
  {
    if n > 0 {
      TmpIsJson(failing, writes, n - 1);
    }
  }

  predicate Rewrites(file: Option<seq<Line>>, env: Environment) {
    Replays(file, env) && Failing(Parsed(file.value), env) != [] && env.opensTmp && env.renames
  }

  /** The environment that lets a replay keep every entry: it does not rewrite, or every write reaches the temporary file. */
  predicate Keeps(file: Option<seq<Line>>, env: Environment) {
    Rewrites(file, env) ==> WrittenTo(env.writesTmp, |Failing(Parsed(file.value), env)|)
  }

  /** A successful rewrite leaves exactly the failing entries, in order, and drops unparsed lines. */
  lemma RewriteHoldsFailing(file: Option<seq<Line>>, env: Environment)
    requires Rewrites(file, env) && Keeps(file, env)
    ensures ReplayFile(file, env).Some? && Parsed(ReplayFile(file, env).value) == Failing(Parsed(file.value), env)
    ensures forall line | line in ReplayFile(file, env).value :: line.Json?
  {
    var failing := Failing(Parsed(file.value), env);
    TmpHolds(failing, env.writesTmp, |failing|);
    TmpIsJson(failing, env.writesTmp, |failing|);
    assert failing[..|failing|] == failing;
  }

  function FileEntries(file: Option<seq<Line>>): seq<AuditEntry> {
    if file.Some? then Parsed(file.value) else []
  }

  /** Nothing is lost: every parsed entry was accepted by the database or is still in the file. */
  predicate Accounted(before: Option<seq<Line>>, stored: seq<AuditEntry>, after: Option<seq<Line>>) {
    multiset(FileEntries(before)) <= multiset(stored) + multiset(FileEntries(after))
  }

  lemma SmallerSum(a: multiset<AuditEntry>, b: multiset<AuditEntry>, c: multiset<AuditEntry>)
    requires a + b <= a + c
    ensures |b| <= |c|
  {
    forall x
      ensures b[x] <= c[x]
    {
      assert (a + b)[x] <= (a + c)[x];
    }
    assert c == b + (c - b);
  }

  /** One replay loses a parsed entry exactly when it rewrites the file and a write to the temporary file failed. */
  lemma ReplayLosesNothingIff(file: Option<seq<Line>>, env: Environment)
    ensures Accounted(file, ReplayStored(file, env), ReplayFile(file, env)) <==> Keeps(file, env)
  {
    if Replays(file, env) {
      var entries := Parsed(file.value);
      var failing := Failing(entries, env);
      ReplayPartition(entries, env);
      if Rewrites(file, env) {
        TmpHolds(failing, env.writesTmp, |failing|);
        assert failing[..|failing|] == failing;
        var left := Parsed(TmpLines(failing, env.writesTmp, |failing|));
        if Accounted(file, ReplayStored(file, env), ReplayFile(file, env)) {
          SmallerSum(multiset(Recovered(entries, env)), multiset(failing), multiset(left));
        }
      }
    }
  }

  /** A file of one entry that the database refuses, with a file system that can rename. */
  lemma OneRefused(e: AuditEntry, env: Environment)
    requires env.opens && env.scans && !env.stores(0) && env.opensTmp && env.renames
    ensures var file := Some([Json(e)]);
            Parsed(file.value) == [e] && Failing([e], env) == [e] && Recovered([e], env) == [] && Rewrites(file, env)
  {
    ParsedAppend([], Json(e));
    assert [] + [Json(e)] == [Json(e)];
    assert Answered([e], env.stores, false, 0) == [] && Answered([e], env.stores, true, 0) == [];
  }

  /** One refused entry, a failed write to the temporary file and a rename: the entry is nowhere. */
  lemma FailedWriteLosesEntry(e: AuditEntry) returns (env: Environment)
    ensures var file := Some([Json(e)]);
            && ReplayStored(file, env) == [] && ReplayFile(file, env) == Some([])
            && !Accounted(file, ReplayStored(file, env), ReplayFile(file, env))
  {
    env := Environment(true, true, _ => false, true, _ => false, true, true);
    OneRefused(e, env);
    assert TmpLines([e], env.writesTmp, 0) == [];
    assert e in multiset([e]);
  }

  /** The recovered entries leave the file: it is rewritten, or emptied when nothing is left to keep. */
  predicate Clears(file: Option<seq<Line>>, env: Environment)
    requires Replays(file, env)
  {
    if Failing(Parsed(file.value), env) != [] then env.opensTmp && env.renames else env.truncates
  }

  /** Exact accounting: no entry is lost and none is both in the database and in the file. */
  predicate Exact(before: Option<seq<Line>>, stored: seq<AuditEntry>, after: Option<seq<Line>>) {
    multiset(FileEntries(before)) == multiset(stored) + multiset(FileEntries(after))
  }

  lemma ClearedIsExact(file: Option<seq<Line>>, env: Environment)
    requires Replays(file, env) && Keeps(file, env) && Clears(file, env)
    ensures Exact(file, ReplayStored(file, env), ReplayFile(file, env))
  {
    ReplayPartition(Parsed(file.value), env);
    if Failing(Parsed(file.value), env) != [] {
      RewriteHoldsFailing(file, env);
    }
  }

  lemma DoubledUnlessEmpty(a: multiset<AuditEntry>, stored: seq<AuditEntry>)
    ensures a == multiset(stored) + a <==> stored == []
  {
    if stored != [] {
      assert stored[0] in multiset(stored);
      assert (multiset(stored) + a)[stored[0]] > a[stored[0]];
    }
  }

  /**
   The accounting of one replay is exact if and only if nothing is lost and the recovered
   entries, if any, left the file: the temporary file, the rename or the truncation worked.
   Otherwise a recovered entry is in the database and in the file, and comes again.
   */
  lemma ReplayIsExactIff(file: Option<seq<Line>>, env: Environment)
    ensures Exact(file, ReplayStored(file, env), ReplayFile(file, env)) <==>
            Keeps(file, env) && (ReplayStored(file, env) == [] || (Replays(file, env) && Clears(file, env)))
  {
    ReplayLosesNothingIff(file, env);
    if Replays(file, env) && Keeps(file, env) {
      if Clears(file, env) {
        ClearedIsExact(file, env);
      } else {
        assert ReplayFile(file, env) == file;
        DoubledUnlessEmpty(multiset(FileEntries(file)), ReplayStored(file, env));
      }
    }
  }

  // ---------------------------------------------------------- repeated replays

  function FileAfter(file: Option<seq<Line>>, envs: seq<Environment>): Option<seq<Line>> {
    if envs == [] then file else ReplayFile(FileAfter(file, envs[..|envs| - 1]), envs[|envs| - 1])
  }

  function StoredAfter(file: Option<seq<Line>>, envs: seq<Environment>): seq<AuditEntry> {
    if envs == [] then []
    else StoredAfter(file, envs[..|envs| - 1]) + ReplayStored(FileAfter(file, envs[..|envs| - 1]), envs[|envs| - 1])
  }

  predicate AllKeep(file: Option<seq<Line>>, envs: seq<Environment>) {
    envs != [] ==>
      AllKeep(file, envs[..|envs| - 1]) && Keeps(FileAfter(file, envs[..|envs| - 1]), envs[|envs| - 1])
  }

  lemma AccountedTrans(before: multiset<AuditEntry>, a: multiset<AuditEntry>, mid: multiset<AuditEntry>, b: multiset<AuditEntry>, after: multiset<AuditEntry>)
    requires before <= a + mid && mid <= b + after
    ensures before <= a + b + after
  {}

  /** Over any number of replays, with any database answers, no parsed entry is lost. */
  lemma {:induction false} ReplaysLoseNothing(file: Option<seq<Line>>, envs: seq<Environment>)
    requires AllKeep(file, envs)
    ensures Accounted(file, StoredAfter(file, envs), FileAfter(file, envs))
  {
    if envs != [] {
      var envs', env := envs[..|envs| - 1], envs[|envs| - 1];
      ReplaysLoseNothing(file, envs');
      ReplayLosesNothingIff(FileAfter(file, envs'), env);
      AccountedTrans(multiset(FileEntries(file)), multiset(StoredAfter(file, envs')), multiset(FileEntries(FileAfter(file, envs'))),
                     multiset(ReplayStored(FileAfter(file, envs'), env)), multiset(FileEntries(FileAfter(file, envs))));
    }
  }

  // ------------------------------------------- the queue's own handle on the file

  /** The file the queue appends to: the one at the path, or one that a rename has put out of reach. */
  datatype Handle = AtPath | Unlinked(lines: seq<Line>)

  /** What is at the path, and the handle the queue opened there at its start. */
  datatype Disk = Disk(path: seq<Line>, handle: Handle)

  datatype DiskEvent = Replay(env: Environment) | Append(entry: AuditEntry)

  /** Truncation keeps the file behind the path; a rename puts another one there. */
  function DiskStep(d: Disk, ev: DiskEvent): Disk {
    match ev
    case Replay(env) =>
      var after := ReplayFile(Some(d.path), env).value;
      if Rewrites(Some(d.path), env) && d.handle.AtPath? then Disk(after, Unlinked(d.path)) else d.(path := after)
    case Append(e) =>
      match d.handle
      case AtPath => d.(path := d.path + [Json(e)])
      case Unlinked(lines) => d.(handle := Unlinked(lines + [Json(e)]))
  }

  function DiskRun(d: Disk, events: seq<DiskEvent>): Disk {
    if events == [] then d else DiskStep(DiskRun(d, events[..|events| - 1]), events[|events| - 1])
  }

  /** Some replay of the run renamed its temporary file over the path. */
  predicate Renamed(d: Disk, events: seq<DiskEvent>) {
    events != [] &&
    (Renamed(d, events[..|events| - 1]) ||
     (events[|events| - 1].Replay? && Rewrites(Some(DiskRun(d, events[..|events| - 1]).path), events[|events| - 1].env)))
  }

  lemma {:induction false} UnlinkedIffRenamed(path: seq<Line>, events: seq<DiskEvent>)
    ensures DiskRun(Disk(path, AtPath), events).handle.Unlinked? <==> Renamed(Disk(path, AtPath), events)
  {
    if events != [] {
      UnlinkedIffRenamed(path, events[..|events| - 1]);
    }
  }

  /**
   An entry the queue appends after its start is at the path, where the next replay looks,
   if and only if no replay since then has renamed; otherwise the path does not change.
   */
  lemma AppendSurvivesIffNotRenamed(path: seq<Line>, events: seq<DiskEvent>, e: AuditEntry)
    ensures var d := DiskRun(Disk(path, AtPath), events);
            var after := DiskStep(d, Append(e));
            && (!Renamed(Disk(path, AtPath), events) <==> Parsed(after.path) == Parsed(d.path) + [e])
            && (Renamed(Disk(path, AtPath), events) ==> after.path == d.path)
  {
    UnlinkedIffRenamed(path, events);
    ParsedAppend(DiskRun(Disk(path, AtPath), events).path, Json(e));
  }

  lemma TwoEvents(d: Disk, a: DiskEvent, b: DiskEvent)
    ensures DiskRun(d, [a, b]) == DiskStep(DiskStep(d, a), b)
  {
    assert [a, b][..1] == [a] && [a][..0] == [];
    assert DiskRun(d, [a]) == DiskStep(DiskRun(d, []), a);
  }

  /** The loss happens: one refused entry makes the replay rename, and the next append is out of reach. */
  lemma RenameStrandsAppends(e: AuditEntry, next: AuditEntry) returns (env: Environment)
    ensures var d := DiskRun(Disk([Json(e)], AtPath), [Replay(env), Append(next)]);
            Parsed(d.path) == [e] && d.handle == Unlinked([Json(e), Json(next)])
  {
    env := Environment(true, true, _ => false, true, _ => true, true, true);
    OneRefused(e, env);
    RewriteHoldsFailing(Some([Json(e)]), env);
    TwoEvents(Disk([Json(e)], AtPath), Replay(env), Append(next));
  }

  // ------------------------------------------------------------------ the code

  class FallbackStore {
    var file: Option<seq<Line>>
    var database: seq<AuditEntry>

    constructor (file: Option<seq<Line>>)
      ensures this.file == file && database == []
    {
      this.file := file;
      database := [];
    }

    /** None is an error return; the count is the number of entries the database accepted. */
    method RecoverFromFallback(env: Environment) returns (recovered: Option<nat>)
      modifies this
      ensures file == ReplayFile(old(file), env)
      ensures database == old(database) + ReplayStored(old(file), env)
      ensures recovered.None? <==> old(file).Some? && (!env.opens || !env.scans)
      ensures recovered.Some? ==> recovered.value == |ReplayStored(old(file), env)|
    {
      if file.None? {
        return Some(0);
      }
      if !env.opens {
        return None;
      }
      var entries := ParseLines(file.value);
      if !env.scans {
        return None;
      }
      if |entries| == 0 {
        if env.truncates {
          file := Some([]);
        }
        return Some(0);
      }
      var count, failedEntries := 0, [];
      for i := 0 to |entries|
        invariant failedEntries == Answered(entries, env.stores, false, i)
        invariant count == |Answered(entries, env.stores, true, i)|
        invariant database == old(database) + Answered(entries, env.stores, true, i) && file == old(file)
      {
        if !env.stores(i) {
          failedEntries := failedEntries + [entries[i]];
        } else {
          database := database + [entries[i]];
          count := count + 1;
        }
      }
      if |failedEntries| > 0 {
        if env.opensTmp {
          var tmp := WriteTmp(failedEntries, env.writesTmp);
          if env.renames {
            file := Some(tmp);
          }
        }
      } else if env.truncates {
        file := Some([]);
      }
      return Some(count);
    }
  }

  /** Blank lines and lines that do not parse are skipped. */
  method ParseLines(lines: seq<Line>) returns (entries: seq<AuditEntry>)
    ensures entries == Parsed(lines)
  {
    entries := [];
    for i := 0 to |lines|
      invariant entries == Parsed(lines[..i])
    {
      assert lines[..i + 1] == lines[..i] + [lines[i]];
      ParsedAppend(lines[..i], lines[i]);
      if lines[i].Json? {
        entries := entries + [lines[i].entry];
      }
    }
    assert lines[..|lines|] == lines;
  }

  method WriteTmp(failing: seq<AuditEntry>, writes: nat -> bool) returns (tmp: seq<Line>)
    ensures tmp == TmpLines(failing, writes, |failing|)
  {
    tmp := [];
    for i := 0 to |failing|
      invariant tmp == TmpLines(failing, writes, i)
    {
      if writes(i) {
        tmp := tmp + [Json(failing[i])];
      }
    }
  }
}
