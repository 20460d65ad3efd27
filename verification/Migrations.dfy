/** Forward migrations of modules: reading a source, comparing it with the
    recorded history, and applying what is new in one transaction. */
module Migrations {
  import opened Sequences
  import opened Common
  import opened Ordering
  import opened Documents

  const MAX_FILES := 256
  const MAX_FILE_BYTES := 0x10_0000
  const MAX_SET_BYTES := 0x100_0000
  const MAX_NAME_BYTES := 255

  /** SHA-256, taken to be injective. */
  datatype Checksum = Sha256(data: string)

  datatype Migration = Migration(id: string, checksum: Checksum, sql: string)

  datatype Entry = Entry(name: string, isDir: bool, data: string)

  // ---------- Reading a source ----------

  predicate Space(c: char) { c == ' ' || ('\t' <= c <= '\r') }

  function TrimStart(s: string): string {
    if s != [] && Space(s[0]) then TrimStart(s[1..]) else s
  }

  function TrimEnd(s: string): string {
    if s != [] && Space(s[|s| - 1]) then TrimEnd(s[..|s| - 1]) else s
  }

  function TrimSpace(s: string): string { TrimEnd(TrimStart(s)) }

  predicate ModuleChar(c: char) { 'a' <= c <= 'z' || '0' <= c <= '9' || c == '-' }

  predicate ValidModule(id: string) {
    1 <= |id| <= 63 && 'a' <= id[0] <= 'z' && forall i :: 0 <= i < |id| ==> ModuleChar(id[i])
  }

  predicate ValidName(name: string) {
    name != "" && |name| <= MAX_NAME_BYTES && name != ".." && '/' !in name
  }

  predicate IsScript(name: string) { |name| >= 4 && name[|name| - 4..] == ".sql" }

  predicate EntriesOk(entries: seq<Entry>) {
    && |entries| <= MAX_FILES
    && (forall i :: 0 <= i < |entries| ==> ValidName(entries[i].name) && (IsScript(entries[i].name) ==> !entries[i].isDir))
    && (forall i, j :: 0 <= i < j < |entries| ==> entries[i].name != entries[j].name)
  }

  function Files(entries: seq<Entry>): map<string, string> {
    if entries == [] then map[]
    else
      var e := entries[|entries| - 1];
      var rest := Files(entries[..|entries| - 1]);
      if IsScript(e.name) then rest[e.name := e.data] else rest
  }

  function NewMigration(moduleID: string, name: string, data: string): Migration {
    Migration(moduleID + "/" + name, Sha256(data), TrimSpace(data))
  }

  /** The scripts `names` in order, within the byte limits. */
  function Load(moduleID: string, files: map<string, string>, names: seq<string>, total: nat): Option<seq<Migration>>
    requires forall n :: n in names ==> n in files
    decreases |names|
  {
    if names == [] then Some([])
    else
      var data := files[names[0]];
      if |data| > MAX_FILE_BYTES || total + |data| > MAX_SET_BYTES || TrimSpace(data) == "" then None
      else
        match Load(moduleID, files, names[1..], total + |data|)
        case None => None
        case Some(rest) => Some([NewMigration(moduleID, names[0], data)] + rest)
  }

  function ReadMigrations(moduleID: string, entries: seq<Entry>): Option<seq<Migration>> {
    if !ValidModule(moduleID) || !EntriesOk(entries) || Files(entries) == map[] then None
    else Load(moduleID, Files(entries), SortedNames(Files(entries).Keys), 0)
  }

  // ---------- The database ----------

  datatype Row = Row(moduleID: string, checksum: Checksum)

  datatype Executed = Executed(moduleID: string, id: string, sql: string)

  /** The registry table and every script whose effects are durable. */
  datatype Db = Db(registry: map<string, Row>, executed: seq<Executed>)

  datatype Applied = Applied(id: string, checksum: Checksum)

  function RowsOf(registry: map<string, Row>, moduleID: string): set<string> {
    set id | id in registry && registry[id].moduleID == moduleID
  }

  /** The recorded history, ordered by migration id. */
  function History(registry: map<string, Row>, moduleID: string): seq<Applied> {
    var ids := SortedNames(RowsOf(registry, moduleID));
    seq(|ids|, i requires 0 <= i < |ids| => assert ids[i] in ids; Applied(ids[i], registry[ids[i]].checksum))
  }

  predicate IsPrefix(applied: seq<Applied>, current: seq<Migration>) {
    && |applied| <= |current|
    && forall i :: 0 <= i < |applied| ==> applied[i].id == current[i].id && applied[i].checksum == current[i].checksum
  }

  /** What may go wrong outside: before the scripts, at one of them, at the
      commit, or only in reporting the commit. */
  datatype Fault = NoFault | Early | AtScript(k: nat) | CommitFails | AnswerLost

  function Execute(db: Db, moduleID: string, item: Migration): Db {
    Db(db.registry[item.id := Row(moduleID, item.checksum)], db.executed + [Executed(moduleID, item.id, item.sql)])
  }

  /** Execute and record scripts one by one; the migration id is a primary key. */
  function ExecuteAll(db: Db, moduleID: string, items: seq<Migration>, fault: Fault): Option<Db>
    decreases |items|
  {
    if items == [] then Some(db)
    else if fault == AtScript(0) || items[0].id in db.registry then None
    else ExecuteAll(Execute(db, moduleID, items[0]), moduleID, items[1..],
                    if fault.AtScript? then AtScript(fault.k - 1) else fault)
  }

  /** The database inside the transaction just before commit, if it gets there. */
  function Attempt(db: Db, moduleID: string, entries: seq<Entry>, accepts: string -> bool, fault: Fault): Option<Db> {
    match ReadMigrations(moduleID, entries)
    case None => None
    case Some(current) =>
      if exists i :: 0 <= i < |current| && !accepts(current[i].sql) then None
      else if fault.Early? then None
      else Inside(db, moduleID, current, fault)
  }

  /** The work inside the transaction: compare the history, then execute the rest. */
  function Inside(db: Db, moduleID: string, current: seq<Migration>, fault: Fault): Option<Db> {
    var applied := History(db.registry, moduleID);
    if |applied| > MAX_FILES || !IsPrefix(applied, current) then None
    else ExecuteAll(db, moduleID, current[|applied|..], fault)
  }

  lemma AttemptIs(db: Db, moduleID: string, entries: seq<Entry>, accepts: string -> bool, fault: Fault, current: seq<Migration>)
    requires ReadMigrations(moduleID, entries) == Some(current) && !fault.Early?
    requires !exists i :: 0 <= i < |current| && !accepts(current[i].sql)
    ensures Attempt(db, moduleID, entries, accepts, fault) == Inside(db, moduleID, current, fault)
  {
  }

  datatype Outcome = Outcome(db: Db, ok: bool)

  /** One call: nothing it did survives unless it commits. */
  function ApplyMigrations(db: Db, moduleID: string, entries: seq<Entry>, accepts: string -> bool, fault: Fault): Outcome {
    match Attempt(db, moduleID, entries, accepts, fault)
    case None => Outcome(db, false)
    case Some(after) =>
      if fault.CommitFails? then Outcome(db, false)
      else Outcome(after, !fault.AnswerLost?)
  }

  predicate Commits(db: Db, moduleID: string, entries: seq<Entry>, accepts: string -> bool, fault: Fault) {
    Attempt(db, moduleID, entries, accepts, fault).Some? && !fault.CommitFails?
  }

  // ---------- Sources are ascending ----------

  predicate Ascending(s: seq<string>) {
    forall i, j :: 0 <= i < j < |s| ==> Le(s[i], s[j]) && s[i] != s[j]
  }

  lemma {:induction false} SortedNamesAscending(s: set<string>)
    ensures Ascending(SortedNames(s))
    decreases |s|
  {
    if s != {} {
      var k := Least(s);
      SortedNamesAscending(s - {k});
      var rest := SortedNames(s - {k});
      forall j | 0 <= j < |rest| ensures Le(k, rest[j]) && k != rest[j] { assert rest[j] in rest; }
    }
  }

  lemma EmptyTogether(a: seq<string>, b: seq<string>)
    requires forall x :: x in a <==> x in b
    ensures a == [] <==> b == []
  {
    if a != [] { assert a[0] in b; }
    if b != [] { assert b[0] in a; }
  }

  lemma {:induction false} AscendingUnique(a: seq<string>, b: seq<string>)
    requires Ascending(a) && Ascending(b) && forall x :: x in a <==> x in b
    ensures a == b
  {
    EmptyTogether(a, b);
    if a != [] {
      assert a[0] in b && b[0] in a;
      var i :| 0 <= i < |b| && b[i] == a[0];
      var j :| 0 <= j < |a| && a[j] == b[0];
      if i > 0 && j > 0 { LeAntisymmetric(a[0], b[0]); }
      assert a[0] == b[0];
      assert a == [a[0]] + a[1..] && b == [b[0]] + b[1..];
      forall x ensures x in a[1..] <==> x in b[1..] {
        assert x in a <==> x == a[0] || x in a[1..];
        assert x in b <==> x == b[0] || x in b[1..];
        assert a[0] !in a[1..] && b[0] !in b[1..];
      }
      AscendingUnique(a[1..], b[1..]);
    }
  }

  lemma {:induction false} LePrefix(p: string, a: string, b: string)
    ensures Le(p + a, p + b) <==> Le(a, b)
  {
    if p == [] {
      assert p + a == a && p + b == b;
    } else {
      LePrefix(p[1..], a, b);
      assert (p + a)[1..] == p[1..] + a && (p + b)[1..] == p[1..] + b;
    }
  }

  function Ids(items: seq<Migration>): (r: seq<string>)
    ensures |r| == |items| && forall i :: 0 <= i < |r| ==> r[i] == items[i].id
  {
    seq(|items|, i requires 0 <= i < |items| => items[i].id)
  }

  predicate WellFormed(item: Migration) { item.sql == TrimSpace(item.checksum.data) }

  /** The id is a name below the module's id. */
  predicate Owns(moduleID: string, id: string) {
    '/' !in moduleID && |id| > |moduleID| && id[..|moduleID|] == moduleID && id[|moduleID|] == '/'
  }

  lemma OneOwner(a: string, b: string, id: string)
    requires Owns(a, id) && Owns(b, id)
    ensures a == b
  {
  }

  /** What every accepted source is. */
  predicate SourceOk(moduleID: string, items: seq<Migration>) {
    && |items| <= MAX_FILES && Ascending(Ids(items))
    && forall i :: 0 <= i < |items| ==> WellFormed(items[i]) && Owns(moduleID, items[i].id)
  }

  lemma {:induction false} LoadShape(moduleID: string, files: map<string, string>, names: seq<string>, total: nat)
    requires (forall n :: n in names ==> n in files) && Load(moduleID, files, names, total).Some?
    ensures var r := Load(moduleID, files, names, total).value;
            |r| == |names| && forall i :: 0 <= i < |r| ==> r[i] == NewMigration(moduleID, names[i], files[names[i]])
    decreases |names|
  {
    if names != [] { LoadShape(moduleID, files, names[1..], total + |files[names[0]]|); }
  }

  lemma {:induction false} FilesBounded(entries: seq<Entry>)
    ensures |Files(entries).Keys| <= |entries|
  {
    if entries != [] {
      FilesBounded(entries[..|entries| - 1]);
      var e, rest := entries[|entries| - 1], Files(entries[..|entries| - 1]);
      if IsScript(e.name) { assert Files(entries).Keys == rest.Keys + {e.name}; }
    }
  }

  lemma {:induction false} SortedNamesSize(s: set<string>)
    ensures |SortedNames(s)| == |s|
    decreases |s|
  {
    if s != {} { SortedNamesSize(s - {Least(s)}); }
  }

  lemma ShapeIsOk(moduleID: string, files: map<string, string>, names: seq<string>, items: seq<Migration>)
    requires ValidModule(moduleID) && Ascending(names) && (forall n :: n in names ==> n in files) && |items| == |names| <= MAX_FILES
    requires forall i :: 0 <= i < |items| ==> items[i] == NewMigration(moduleID, names[i], files[names[i]])
    ensures SourceOk(moduleID, items)
  {
    var prefix := moduleID + "/";
    forall i, j | 0 <= i < j < |items| ensures Le(Ids(items)[i], Ids(items)[j]) && Ids(items)[i] != Ids(items)[j] {
      LePrefix(prefix, names[i], names[j]);
      if items[i].id == items[j].id { SamePrefix(prefix, names[i], names[j]); }
    }
    forall i | 0 <= i < |items| ensures Owns(moduleID, items[i].id) { NameIsOwned(moduleID, names[i]); }
  }

  lemma SourceIsOk(moduleID: string, entries: seq<Entry>)
    requires ReadMigrations(moduleID, entries).Some?
    ensures SourceOk(moduleID, ReadMigrations(moduleID, entries).value)
  {
    var files := Files(entries);
    var names := SortedNames(files.Keys);
    LoadShape(moduleID, files, names, 0);
    SortedNamesAscending(files.Keys);
    FilesBounded(entries);
    SortedNamesSize(files.Keys);
    ShapeIsOk(moduleID, files, names, ReadMigrations(moduleID, entries).value);
  }

  lemma NameIsOwned(moduleID: string, name: string)
    requires ValidModule(moduleID)
    ensures Owns(moduleID, moduleID + "/" + name)
  {
    assert '/' !in moduleID by { assert forall i :: 0 <= i < |moduleID| ==> ModuleChar(moduleID[i]); }
  }

  lemma SamePrefix(p: string, a: string, b: string)
    requires p + a == p + b
    ensures a == b
  {
    assert (p + a)[|p|..] == a && (p + b)[|p|..] == b;
  }

  // ---------- What the registry records ----------

  /** The rows of a module are exactly the migrations `items`. */
  ghost predicate Recorded(registry: map<string, Row>, moduleID: string, items: seq<Migration>) {
    && (forall i :: 0 <= i < |items| ==> items[i].id in registry && registry[items[i].id] == Row(moduleID, items[i].checksum))
    && (forall id :: id in registry && registry[id].moduleID == moduleID ==> id in Ids(items))
  }

  function AppliedOf(items: seq<Migration>): (r: seq<Applied>)
    ensures |r| == |items| && forall i :: 0 <= i < |r| ==> r[i] == Applied(items[i].id, items[i].checksum)
  {
    seq(|items|, i requires 0 <= i < |items| => Applied(items[i].id, items[i].checksum))
  }

  lemma HistoryIsRecorded(registry: map<string, Row>, moduleID: string, items: seq<Migration>)
    requires Recorded(registry, moduleID, items) && Ascending(Ids(items))
    ensures History(registry, moduleID) == AppliedOf(items)
  {
    var rows := RowsOf(registry, moduleID);
    SortedNamesAscending(rows);
    var ids := SortedNames(rows);
    forall x ensures x in ids <==> x in Ids(items) {
      if x in Ids(items) { var i :| 0 <= i < |items| && Ids(items)[i] == x; }
    }
    AscendingUnique(ids, Ids(items));
  }

  function ExecutedOf(moduleID: string, items: seq<Migration>): (r: seq<Executed>)
    ensures |r| == |items| && forall i :: 0 <= i < |r| ==> r[i] == Executed(moduleID, items[i].id, items[i].sql)
  {
    seq(|items|, i requires 0 <= i < |items| => Executed(moduleID, items[i].id, items[i].sql))
  }

  lemma ExecuteOne(db: Db, moduleID: string, done: seq<Migration>, item: Migration)
    requires Recorded(db.registry, moduleID, done) && item.id !in db.registry
    ensures Recorded(Execute(db, moduleID, item).registry, moduleID, done + [item])
  {
    var more := done + [item];
    forall i | 0 <= i < |done| ensures more[i] == done[i] && Ids(more)[i] == Ids(done)[i] {}
    assert Ids(more)[|done|] == item.id;
    forall id | id in Ids(done) ensures id in Ids(more) {
      var i :| 0 <= i < |done| && Ids(done)[i] == id;
      assert Ids(more)[i] == id;
    }
  }

  lemma ExecuteElsewhere(db: Db, moduleID: string, item: Migration, other: string, items: seq<Migration>)
    requires Recorded(db.registry, other, items) && item.id !in db.registry && other != moduleID
    ensures Recorded(Execute(db, moduleID, item).registry, other, items)
  {
  }

  lemma {:induction false} ExecuteAllRecords(db: Db, moduleID: string, done: seq<Migration>, items: seq<Migration>, fault: Fault)
    requires Recorded(db.registry, moduleID, done) && ExecuteAll(db, moduleID, items, fault).Some?
    ensures var after := ExecuteAll(db, moduleID, items, fault).value;
            && Recorded(after.registry, moduleID, done + items)
            && after.executed == db.executed + ExecutedOf(moduleID, items)
    decreases |items|
  {
    if items == [] {
      assert done + items == done;
    } else {
      ExecuteOne(db, moduleID, done, items[0]);
      var next := if fault.AtScript? then AtScript(fault.k - 1) else fault;
      ExecuteAllRecords(Execute(db, moduleID, items[0]), moduleID, done + [items[0]], items[1..], next);
      TakeFirst(done, items);
      TakeFirstExecuted(db.executed, moduleID, items);
    }
  }

  lemma TakeFirst(done: seq<Migration>, items: seq<Migration>)
    requires items != []
    ensures done + [items[0]] + items[1..] == done + items
  {
  }

  lemma TakeFirstExecuted(before: seq<Executed>, moduleID: string, items: seq<Migration>)
    requires items != []
    ensures before + [Executed(moduleID, items[0].id, items[0].sql)] + ExecutedOf(moduleID, items[1..])
         == before + ExecutedOf(moduleID, items)
  {
  }

  lemma {:induction false} ExecuteAllElsewhere(db: Db, moduleID: string, items: seq<Migration>, fault: Fault,
                                               other: string, theirs: seq<Migration>)
    requires Recorded(db.registry, other, theirs) && other != moduleID && ExecuteAll(db, moduleID, items, fault).Some?
    ensures Recorded(ExecuteAll(db, moduleID, items, fault).value.registry, other, theirs)
    decreases |items|
  {
    if items != [] {
      ExecuteElsewhere(db, moduleID, items[0], other, theirs);
      var next := if fault.AtScript? then AtScript(fault.k - 1) else fault;
      ExecuteAllElsewhere(Execute(db, moduleID, items[0]), moduleID, items[1..], next, other, theirs);
    }
  }

  // ---------- Runs ----------

  datatype Call = Call(moduleID: string, entries: seq<Entry>, accepts: string -> bool, fault: Fault)

  datatype Commit = Commit(moduleID: string, source: seq<Migration>)

  /** The database and the sources committed so far. */
  datatype State = State(db: Db, log: seq<Commit>)

  function Step(s: State, c: Call): State {
    var r := ApplyMigrations(s.db, c.moduleID, c.entries, c.accepts, c.fault);
    if Commits(s.db, c.moduleID, c.entries, c.accepts, c.fault) then
      State(r.db, s.log + [Commit(c.moduleID, ReadMigrations(c.moduleID, c.entries).value)])
    else State(r.db, s.log)
  }

  function Run(calls: seq<Call>): State {
    if calls == [] then State(Db(map[], []), []) else Step(Run(calls[..|calls| - 1]), calls[|calls| - 1])
  }

  /** The last committed source of a module. */
  function Last(log: seq<Commit>, moduleID: string): seq<Migration> {
    if log == [] then []
    else if log[|log| - 1].moduleID == moduleID then log[|log| - 1].source
    else Last(log[..|log| - 1], moduleID)
  }

  function ExecutedFor(executed: seq<Executed>, moduleID: string): seq<Executed> {
    if executed == [] then []
    else
      var rest, last := ExecutedFor(executed[..|executed| - 1], moduleID), executed[|executed| - 1];
      if last.moduleID == moduleID then rest + [last] else rest
  }

  ghost predicate ModuleInv(s: State, moduleID: string) {
    var items := Last(s.log, moduleID);
    && SourceOk(moduleID, items) && Recorded(s.db.registry, moduleID, items)
    && ExecutedFor(s.db.executed, moduleID) == ExecutedOf(moduleID, items)
  }

  predicate Chain(log: seq<Commit>) {
    forall i, j :: 0 <= i < j < |log| && log[i].moduleID == log[j].moduleID ==> log[i].source <= log[j].source
  }

  predicate Bounded(log: seq<Commit>) {
    forall i :: 0 <= i < |log| ==> log[i].source <= Last(log, log[i].moduleID)
  }

  ghost predicate Inv(s: State) {
    (forall m :: ModuleInv(s, m)) && Chain(s.log) && Bounded(s.log)
  }

  /** A recorded history that matches a source is a prefix of it, scripts
      included. */
  lemma PrefixIsExact(moduleID: string, earlier: seq<Migration>, current: seq<Migration>)
    requires SourceOk(moduleID, earlier) && SourceOk(moduleID, current)
    ensures IsPrefix(AppliedOf(earlier), current) <==> earlier <= current
    ensures earlier <= current ==> current == earlier + current[|earlier|..]
  {
    if IsPrefix(AppliedOf(earlier), current) {
      forall i | 0 <= i < |earlier| ensures earlier[i] == current[i] {
        assert AppliedOf(earlier)[i].id == current[i].id && AppliedOf(earlier)[i].checksum == current[i].checksum;
        assert WellFormed(earlier[i]) && WellFormed(current[i]);
      }
    }
  }

  lemma LastExecuted(a: seq<Executed>, moduleID: string, items: seq<Migration>)
    requires items != []
    ensures var s := a + ExecutedOf(moduleID, items);
            var front := items[..|items| - 1];
            && s != [] && s[..|s| - 1] == a + ExecutedOf(moduleID, front)
            && s[|s| - 1] == Executed(moduleID, items[|items| - 1].id, items[|items| - 1].sql)
            && ExecutedOf(moduleID, items) == ExecutedOf(moduleID, front) + [s[|s| - 1]]
  {
  }

  lemma {:induction false} ExecutedForConcat(a: seq<Executed>, moduleID: string, items: seq<Migration>, other: string)
    ensures ExecutedFor(a + ExecutedOf(moduleID, items), other)
         == ExecutedFor(a, other) + (if moduleID == other then ExecutedOf(moduleID, items) else [])
    decreases |items|
  {
    var b := ExecutedOf(moduleID, items);
    if items == [] {
      assert a + b == a;
    } else {
      var front := items[..|items| - 1];
      ExecutedForConcat(a, moduleID, front, other);
      LastExecuted(a, moduleID, items);
    }
  }

  lemma Committed(s: State, c: Call)
    requires ModuleInv(s, c.moduleID) && Commits(s.db, c.moduleID, c.entries, c.accepts, c.fault)
    ensures var current := ReadMigrations(c.moduleID, c.entries).value;
            && Last(s.log, c.moduleID) <= current && SourceOk(c.moduleID, current)
            && ExecuteAll(s.db, c.moduleID, current[|Last(s.log, c.moduleID)|..], c.fault) == Some(Step(s, c).db)
            && Step(s, c).log == s.log + [Commit(c.moduleID, current)]
  {
    var items, current := Last(s.log, c.moduleID), ReadMigrations(c.moduleID, c.entries).value;
    SourceIsOk(c.moduleID, c.entries);
    HistoryIsRecorded(s.db.registry, c.moduleID, items);
    PrefixIsExact(c.moduleID, items, current);
  }

  lemma OwnModuleKept(s: State, c: Call)
    requires ModuleInv(s, c.moduleID) && Commits(s.db, c.moduleID, c.entries, c.accepts, c.fault)
    ensures ModuleInv(Step(s, c), c.moduleID)
  {
    Committed(s, c);
    var items, current := Last(s.log, c.moduleID), ReadMigrations(c.moduleID, c.entries).value;
    var rest := current[|items|..];
    PrefixIsExact(c.moduleID, items, current);
    ExecuteAllRecords(s.db, c.moduleID, items, rest, c.fault);
    ExecutedForConcat(s.db.executed, c.moduleID, rest, c.moduleID);
    ExecutedSplit(c.moduleID, items, current);
  }

  lemma ExecutedSplit(moduleID: string, items: seq<Migration>, current: seq<Migration>)
    requires items <= current
    ensures ExecutedOf(moduleID, items) + ExecutedOf(moduleID, current[|items|..]) == ExecutedOf(moduleID, current)
  {
  }

  lemma OtherModuleKept(s: State, c: Call, other: string)
    requires ModuleInv(s, c.moduleID) && ModuleInv(s, other) && other != c.moduleID
    requires Commits(s.db, c.moduleID, c.entries, c.accepts, c.fault)
    ensures ModuleInv(Step(s, c), other)
  {
    Committed(s, c);
    var items, current := Last(s.log, c.moduleID), ReadMigrations(c.moduleID, c.entries).value;
    var rest := current[|items|..];
    ExecuteAllElsewhere(s.db, c.moduleID, rest, c.fault, other, Last(s.log, other));
    ExecuteAllRecords(s.db, c.moduleID, items, rest, c.fault);
    ExecutedForConcat(s.db.executed, c.moduleID, rest, other);
    assert (s.log + [Commit(c.moduleID, current)])[..|s.log|] == s.log;
  }

  lemma ChainKept(log: seq<Commit>, next: Commit)
    requires Chain(log) && Bounded(log) && Last(log, next.moduleID) <= next.source
    ensures Chain(log + [next]) && Bounded(log + [next])
  {
    var more := log + [next];
    assert more[..|log|] == log;
    forall i | 0 <= i < |log| && log[i].moduleID == next.moduleID ensures log[i].source <= next.source {
      assert log[i].source <= Last(log, log[i].moduleID);
    }
    forall i | 0 <= i < |more| ensures more[i].source <= Last(more, more[i].moduleID) {
      if i < |log| { assert log[i].source <= Last(log, log[i].moduleID); }
    }
  }

  lemma StepKeepsInv(s: State, c: Call)
    requires Inv(s)
    ensures Inv(Step(s, c))
  {
    assert ModuleInv(s, c.moduleID);
    if Commits(s.db, c.moduleID, c.entries, c.accepts, c.fault) {
      Committed(s, c);
      ChainKept(s.log, Commit(c.moduleID, ReadMigrations(c.moduleID, c.entries).value));
      forall m ensures ModuleInv(Step(s, c), m) {
        if m == c.moduleID { OwnModuleKept(s, c); } else { assert ModuleInv(s, m); OtherModuleKept(s, c, m); }
      }
    } else {
      assert Step(s, c) == s;
    }
  }

  lemma {:induction false} RunKeepsInv(calls: seq<Call>)
    ensures Inv(Run(calls))
  {
    if calls == [] {
      forall m ensures ModuleInv(Run(calls), m) {}
    } else {
      RunKeepsInv(calls[..|calls| - 1]);
      StepKeepsInv(Run(calls[..|calls| - 1]), calls[|calls| - 1]);
    }
  }

  // ---------- Main results ----------

  /** A module's history is its last committed source, and exactly its scripts
      were executed, once each and in that order. */
  lemma HistoryIsLastSource(calls: seq<Call>, moduleID: string)
    ensures var s := Run(calls);
            && History(s.db.registry, moduleID) == AppliedOf(Last(s.log, moduleID))
            && ExecutedFor(s.db.executed, moduleID) == ExecutedOf(moduleID, Last(s.log, moduleID))
  {
    RunKeepsInv(calls);
    var s := Run(calls);
    assert ModuleInv(s, moduleID);
    HistoryIsRecorded(s.db.registry, moduleID, Last(s.log, moduleID));
  }

  /** The sources committed for a module form a chain of prefixes. */
  lemma CommitsFormChain(calls: seq<Call>)
    ensures Chain(Run(calls).log)
  {
    RunKeepsInv(calls);
  }

  /** Histories and executed scripts only grow. */
  lemma {:induction false} HistoryIsAppendOnly(calls: seq<Call>, more: seq<Call>, moduleID: string)
    ensures Last(Run(calls).log, moduleID) <= Last(Run(calls + more).log, moduleID)
    ensures Run(calls).log <= Run(calls + more).log
    decreases |more|
  {
    if more == [] {
      assert calls + more == calls;
    } else {
      var front, c := more[..|more| - 1], more[|more| - 1];
      HistoryIsAppendOnly(calls, front, moduleID);
      RunOneMore(calls, more);
      RunKeepsInv(calls + front);
      StepGrows(Run(calls + front), c, moduleID);
    }
  }

  lemma RunOneMore(calls: seq<Call>, more: seq<Call>)
    requires more != []
    ensures Run(calls + more) == Step(Run(calls + more[..|more| - 1]), more[|more| - 1])
  {
    LastOfConcat(calls, more);
  }

  lemma StepGrows(s: State, c: Call, moduleID: string)
    requires Inv(s)
    ensures s.log <= Step(s, c).log && Last(s.log, moduleID) <= Last(Step(s, c).log, moduleID)
  {
    assert ModuleInv(s, c.moduleID);
    if Commits(s.db, c.moduleID, c.entries, c.accepts, c.fault) {
      Committed(s, c);
      assert Step(s, c).log[..|s.log|] == s.log;
    }
  }

  /** A call that does not commit changes nothing, and an acknowledged call has
      committed. */
  lemma FailureChangesNothing(calls: seq<Call>, c: Call)
    ensures var s := Run(calls);
            var r := ApplyMigrations(s.db, c.moduleID, c.entries, c.accepts, c.fault);
            && (r.ok ==> Last(Step(s, c).log, c.moduleID) == ReadMigrations(c.moduleID, c.entries).value)
            && (!r.ok && !c.fault.AnswerLost? ==> Step(s, c) == s)
  {
  }

  lemma {:induction false} NothingTaken(db: Db, moduleID: string, items: seq<Migration>)
    requires Ascending(Ids(items)) && forall i :: 0 <= i < |items| ==> items[i].id !in db.registry
    ensures ExecuteAll(db, moduleID, items, NoFault).Some?
    decreases |items|
  {
    if items != [] {
      var rest := items[1..];
      forall i | 0 <= i < |rest| ensures rest[i].id !in Execute(db, moduleID, items[0]).registry {
        assert Ids(items)[0] != Ids(items)[i + 1];
      }
      forall i, j | 0 <= i < j < |rest| ensures Le(Ids(rest)[i], Ids(rest)[j]) && Ids(rest)[i] != Ids(rest)[j] {
        assert Le(Ids(items)[i + 1], Ids(items)[j + 1]);
      }
      NothingTaken(Execute(db, moduleID, items[0]), moduleID, rest);
    }
  }

  predicate Acceptable(source: Option<seq<Migration>>, accepts: string -> bool) {
    source.Some? && forall i :: 0 <= i < |source.value| ==> accepts(source.value[i].sql)
  }

  lemma AttemptExactly(s: State, moduleID: string, entries: seq<Entry>, accepts: string -> bool)
    requires Inv(s) && Acceptable(ReadMigrations(moduleID, entries), accepts)
    ensures Attempt(s.db, moduleID, entries, accepts, NoFault).Some?
       <==> Last(s.log, moduleID) <= ReadMigrations(moduleID, entries).value
  {
    var items, current := Last(s.log, moduleID), ReadMigrations(moduleID, entries).value;
    assert ModuleInv(s, moduleID);
    SourceIsOk(moduleID, entries);
    HistoryIsRecorded(s.db.registry, moduleID, items);
    PrefixIsExact(moduleID, items, current);
    if items <= current {
      RestIsFree(s, moduleID, current);
      NothingTaken(s.db, moduleID, current[|items|..]);
    }
  }

  /** Without outside faults a call succeeds exactly when its source is readable
      and accepted, and extends what was committed before. */
  lemma SucceedsExactly(calls: seq<Call>, moduleID: string, entries: seq<Entry>, accepts: string -> bool)
    ensures var s := Run(calls);
            var source := ReadMigrations(moduleID, entries);
            ApplyMigrations(s.db, moduleID, entries, accepts, NoFault).ok <==>
              Acceptable(source, accepts) && Last(s.log, moduleID) <= source.value
  {
    RunKeepsInv(calls);
    if Acceptable(ReadMigrations(moduleID, entries), accepts) { AttemptExactly(Run(calls), moduleID, entries, accepts); }
  }

  lemma RestIsFree(s: State, moduleID: string, current: seq<Migration>)
    requires Inv(s) && SourceOk(moduleID, current) && Last(s.log, moduleID) <= current
    ensures var rest := current[|Last(s.log, moduleID)|..];
            Ascending(Ids(rest)) && forall i :: 0 <= i < |rest| ==> rest[i].id !in s.db.registry
  {
    var items := Last(s.log, moduleID);
    var rest := current[|items|..];
    forall i, j | 0 <= i < j < |rest| ensures Le(Ids(rest)[i], Ids(rest)[j]) && Ids(rest)[i] != Ids(rest)[j] {
      assert Le(Ids(current)[|items| + i], Ids(current)[|items| + j]);
    }
    forall i | 0 <= i < |rest| ensures rest[i].id !in s.db.registry {
      var id := rest[i].id;
      assert id == Ids(current)[|items| + i];
      if id in s.db.registry { IdTaken(s, moduleID, current, |items| + i); }
    }
  }

  lemma IdTaken(s: State, moduleID: string, current: seq<Migration>, k: nat)
    requires Inv(s) && SourceOk(moduleID, current) && Last(s.log, moduleID) <= current && k < |current|
    requires current[k].id in s.db.registry
    ensures k < |Last(s.log, moduleID)|
  {
    var id := current[k].id;
    var owner := s.db.registry[id].moduleID;
    assert ModuleInv(s, owner);
    var theirs := Last(s.log, owner);
    var i :| 0 <= i < |theirs| && Ids(theirs)[i] == id;
    assert Owns(owner, theirs[i].id);
    OneOwner(owner, moduleID, id);
    AscendingDistinct(Ids(current), i, k);
  }

  lemma AscendingDistinct(s: seq<string>, i: nat, j: nat)
    requires Ascending(s) && i < |s| && j < |s| && s[i] == s[j]
    ensures i == j
  {
  }

  // ---------- The call as the program runs it ----------

  class MigrationStore {
    var registry: map<string, Row>
    var executed: seq<Executed>

    ghost function Model(): Db
      reads this
    {
      Db(registry, executed)
    }

    constructor ()
      ensures Model() == Run([]).db
    {
      registry, executed := map[], [];
    }

    /** Apply a source inside one transaction, rolled back on any failure. */
    method Apply(moduleID: string, entries: seq<Entry>, accepts: string -> bool, fault: Fault) returns (ok: bool)
      modifies this
      ensures Outcome(Model(), ok) == ApplyMigrations(old(Model()), moduleID, entries, accepts, fault)
    {
      var source := ReadMigrations(moduleID, entries);
      if source.None? { return false; }
      var current := source.value;
      var valid := ValidateAll(current, accepts);
      if !valid || fault.Early? { return false; }
      AttemptIs(Model(), moduleID, entries, accepts, fault, current);
      var savedRegistry, savedExecuted := registry, executed;
      var committed := Transaction(moduleID, current, fault);
      if !committed || fault.CommitFails? {
        registry, executed := savedRegistry, savedExecuted;
        return false;
      }
      return !fault.AnswerLost?;
    }

    method ValidateAll(current: seq<Migration>, accepts: string -> bool) returns (ok: bool)
      ensures ok <==> !exists i :: 0 <= i < |current| && !accepts(current[i].sql)
    {
      for i := 0 to |current|
        invariant forall k :: 0 <= k < i ==> accepts(current[k].sql)
      {
        if !accepts(current[i].sql) { return false; }
      }
      return true;
    }

    /** Compare the history with the source, then execute and record the rest. */
    method Transaction(moduleID: string, current: seq<Migration>, fault: Fault) returns (ok: bool)
      modifies this
      ensures var result := Inside(old(Model()), moduleID, current, fault); ok == result.Some? && (ok ==> Model() == result.value)
    {
      var applied := History(registry, moduleID);
      var isPrefix := ComparePrefix(applied, current);
      if |applied| > MAX_FILES || !isPrefix { return false; }
      ok := ExecuteRest(moduleID, current[|applied|..], fault);
    }

    method ComparePrefix(applied: seq<Applied>, current: seq<Migration>) returns (ok: bool)
      ensures ok == IsPrefix(applied, current)
    {
      if |applied| > |current| { return false; }
      for i := 0 to |applied|
        invariant forall k :: 0 <= k < i ==> applied[k].id == current[k].id && applied[k].checksum == current[k].checksum
      {
        if applied[i].id != current[i].id || applied[i].checksum != current[i].checksum { return false; }
      }
      return true;
    }

    method ExecuteRest(moduleID: string, rest: seq<Migration>, fault: Fault) returns (ok: bool)
      modifies this
      ensures var result := ExecuteAll(old(Model()), moduleID, rest, fault); ok == result.Some? && (ok ==> Model() == result.value)
    {
      var left := fault;
      ghost var whole := ExecuteAll(Model(), moduleID, rest, fault);
      assert rest[0..] == rest;
      for i := 0 to |rest|
        invariant whole == ExecuteAll(Model(), moduleID, rest[i..], left)
      {
        assert rest[i..][0] == rest[i] && rest[i..][1..] == rest[i + 1..];
        if left == AtScript(0) || rest[i].id in registry { return false; }
        executed := executed + [Executed(moduleID, rest[i].id, rest[i].sql)];
        registry := registry[rest[i].id := Row(moduleID, rest[i].checksum)];
        left := if left.AtScript? then AtScript(left.k - 1) else left;
      }
      return true;
    }
  }
}
