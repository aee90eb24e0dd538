/** Crash-safe incremental recording: a writer that commits one exchange at a time to a database file, recovery
    after a crash, and a reader that tails the file while it grows. A commit is one atomic step. */
module Checkpoint {
  import opened Seqs
  import opened Tapes

  datatype Row = Row(id: nat, exchange: Exchange)

  /** A complete saved tape, draws included. */
  datatype SavedTape = SavedTape(agentName: string, boundary: string, exchanges: Tape, draws: seq<Bytes>)

  /** The tables of a checkpoint file. `lastId` is the autoincrement counter; `saved` is what the tables of the saved
      tape hold, if they are all there. */
  datatype Disk = Disk(
    rows: seq<Row>, lastId: nat, agentName: Option<string>, boundary: Option<string>, finalized: bool,
    saved: Option<SavedTape>)

  const EMPTY_DISK := Disk([], 0, None, None, false, None)

  const DEFAULT_BOUNDARY := "single-process-asyncio-v1"

  /** What emptied tape tables load as. */
  const EMPTY_TAPE := SavedTape("", DEFAULT_BOUNDARY, [], [])

  // ---- what each commit does to the file ------------------------------------------------------------------

  /** `CREATE TABLE IF NOT EXISTS`, also on a missing file. */
  function WithSchema(file: Option<Disk>): Disk {
    if file.Some? then file.value else EMPTY_DISK
  }

  /** `INSERT OR IGNORE` */
  function IfUnset(current: Option<string>, v: string): Option<string> {
    if current.Some? then current else Some(v)
  }

  function AfterOpen(d: Disk, agentName: string, boundary: string): Disk {
    d.(agentName := IfUnset(d.agentName, agentName), boundary := IfUnset(d.boundary, boundary))
  }

  function AfterAppend(d: Disk, x: Exchange): Disk {
    d.(rows := d.rows + [Row(d.lastId + 1, x)], lastId := d.lastId + 1)
  }

  /** Saving a tape starts by dropping and recreating its tables, outside its transaction: from the first one dropped
      until the last one recreated there is no tape to load. */
  function AfterDrop(d: Disk): Disk {
    d.(saved := None)
  }

  function AfterRecreate(d: Disk): Disk {
    d.(saved := Some(EMPTY_TAPE))
  }

  function AfterSave(d: Disk, tape: SavedTape): Disk {
    d.(saved := Some(tape))
  }

  function AfterFlag(d: Disk): Disk {
    d.(finalized := true)
  }

  function ExchangesOf(rows: seq<Row>): (tape: Tape)
    ensures |tape| == |rows|
  {
    seq(|rows|, i requires 0 <= i < |rows| => rows[i].exchange)
  }

  class Database {
    var file: Option<Disk>

    constructor ()
      ensures file == None
    {
      file := None;
    }
  }

  class CheckpointWriter {
    const db: Database

    constructor (db: Database, agentName: string, boundary: string)
      modifies db
      ensures this.db == db
      ensures db.file == Some(AfterOpen(WithSchema(old(db.file)), agentName, boundary))
    {
      this.db := db;
      new;
      db.file := Some(WithSchema(db.file));
      db.file := Some(AfterOpen(db.file.value, agentName, boundary));
    }

    method AppendExchange(request: Bytes, response: Bytes)
      requires db.file.Some?
      modifies db
      ensures db.file == Some(AfterAppend(old(db.file).value, Exchange(request, response)))
    {
      var disk := db.file.value;
      db.file := Some(disk.(rows := disk.rows + [Row(disk.lastId + 1, Exchange(request, response))],
                            lastId := disk.lastId + 1));
    }

    /** The tape tables dropped and recreated, the complete tape committed, then the flag. */
    method Finalize(tape: SavedTape)
      requires db.file.Some?
      modifies db
      ensures db.file == Some(AfterFlag(AfterSave(old(db.file).value, tape)))
    {
      db.file := Some(AfterDrop(db.file.value));
      db.file := Some(AfterRecreate(db.file.value));
      db.file := Some(db.file.value.(saved := Some(tape)));
      db.file := Some(db.file.value.(finalized := true));
    }
  }

  // ---- reading --------------------------------------------------------------------------------------------

  function RowsAfter(rows: seq<Row>, since: int): seq<Row> {
    if rows == [] then []
    else
      var last := |rows| - 1;
      RowsAfter(rows[..last], since) + if rows[last].id > since then [rows[last]] else []
  }

  datatype Status = Status(wasFinalized: bool, agentName: string, exchangeCount: nat)

  function NameOr(name: Option<string>, default: string): string {
    if name.Some? then name.value else default
  }

  /** `checkpoint_status` reads the metadata and then counts the rows. */
  function StatusRead(meta: Disk, count: Disk): Status {
    Status(meta.finalized, NameOr(meta.agentName, ""), |count.rows|)
  }

  datatype Recovery = NoFile | Recovered(tape: SavedTape, wasFinalized: bool) | NoSavedTape

  /** The saved tape if finalized, and otherwise the committed exchanges in order, without draws. */
  method Recover(file: Option<Disk>) returns (r: Recovery)
    ensures r == RecoveryOf(file)
  {
    if file == None {
      return NoFile;
    }
    var disk := file.value;
    if disk.finalized {
      if disk.saved == None {
        return NoSavedTape;
      }
      return Recovered(disk.saved.value, true);
    }
    var exchanges: Tape := [];
    for i := 0 to |disk.rows|
      invariant exchanges == ExchangesOf(disk.rows)[..i]
    {
      exchanges := exchanges + [disk.rows[i].exchange];
    }
    return Recovered(SavedTape(NameOr(disk.agentName, ""), NameOr(disk.boundary, DEFAULT_BOUNDARY), exchanges, []),
                     false);
  }

  function RecoveryOf(file: Option<Disk>): Recovery {
    match file
    case None => NoFile
    case Some(d) =>
      if d.finalized then (if d.saved.Some? then Recovered(d.saved.value, true) else NoSavedTape)
      else Recovered(SavedTape(NameOr(d.agentName, ""), NameOr(d.boundary, DEFAULT_BOUNDARY), ExchangesOf(d.rows), []),
                     false)
  }

  // ---- runs with crashes ----------------------------------------------------------------------------------

  /** What the recording process is in the middle of. */
  datatype Phase =
    | Down | Created | Idle | Appending(x: Exchange) | Committed(x: Exchange) | Dropped | Emptied | Saved

  /** The steps of a recording process: opening the writer (schema, then metadata), an append (begun, committed,
      returned), finalizing (the old tape tables dropped, recreated, the tape saved, then the flag set), and a crash at
      any point, after which it may be started again. */
  datatype Action =
    | Create
    | Register(agentName: string, boundary: string)
    | Begin(x: Exchange)
    | Commit
    | Return
    | Drop
    | Recreate
    | Save(tape: SavedTape)
    | Flag
    | Crash

  datatype Naming = Naming(agentName: string, boundary: string)

  datatype State = State(
    file: Option<Disk>,
    phase: Phase,
    begun: Tape,      // the appends started
    committed: Tape,  // the appends committed
    returned: Tape,   // the appends that returned to their caller
    crashes: nat,
    first: Option<Naming>)  // the first opening

  const START := State(None, Down, [], [], [], 0, None)

  predicate Enabled(s: State, a: Action) {
    match a
    case Create => s.phase.Down?
    case Register(_, _) => s.phase.Created? && s.file.Some?
    case Begin(_) => s.phase.Idle? && s.file.Some?
    case Commit => s.phase.Appending? && s.file.Some?
    case Return => s.phase.Committed?
    case Drop => s.phase.Idle? && s.file.Some?
    case Recreate => s.phase.Dropped? && s.file.Some?
    case Save(_) => s.phase.Emptied? && s.file.Some?
    case Flag => s.phase.Saved? && s.file.Some?
    case Crash => !s.phase.Down?
  }

  function Step(s: State, a: Action): State
    requires Enabled(s, a)
  {
    match a
    case Create => s.(file := Some(WithSchema(s.file)), phase := Created)
    case Register(agentName, boundary) =>
      s.(file := Some(AfterOpen(s.file.value, agentName, boundary)), phase := Idle,
         first := if s.first.Some? then s.first else Some(Naming(agentName, boundary)))
    case Begin(x) => s.(phase := Appending(x), begun := s.begun + [x])
    case Commit =>
      s.(file := Some(AfterAppend(s.file.value, s.phase.x)), phase := Committed(s.phase.x),
         committed := s.committed + [s.phase.x])
    case Return => s.(phase := Idle, returned := s.returned + [s.phase.x])
    case Drop => s.(file := Some(AfterDrop(s.file.value)), phase := Dropped)
    case Recreate => s.(file := Some(AfterRecreate(s.file.value)), phase := Emptied)
    case Save(tape) => s.(file := Some(AfterSave(s.file.value, tape)), phase := Saved)
    case Flag => s.(file := Some(AfterFlag(s.file.value)), phase := Idle)
    case Crash => s.(phase := Down, crashes := s.crashes + 1)
  }

  /** Where a sequence of actions leads, if each is enabled in its turn. */
  function RunOf(actions: seq<Action>): Option<State> {
    if actions == [] then Some(START)
    else
      var before, a := RunOf(actions[..|actions| - 1]), actions[|actions| - 1];
      if before.Some? && Enabled(before.value, a) then Some(Step(before.value, a)) else None
  }

  ghost predicate Reaches(actions: seq<Action>, s: State) {
    RunOf(actions) == Some(s)
  }

  /** `a` is `b` with some entries left out. */
  ghost predicate Subsequence(a: Tape, b: Tape) {
    if b == [] then a == []
    else
      var last := |b| - 1;
      || Subsequence(a, b[..last])
      || (a != [] && a[|a| - 1] == b[last] && Subsequence(a[..|a| - 1], b[..last]))
  }

  lemma {:induction false} SubsequenceSkip(a: Tape, b: Tape, x: Exchange)
    requires Subsequence(a, b)
    ensures Subsequence(a, b + [x]) && Subsequence(a + [x], b + [x])
  {
    assert (b + [x])[..|b|] == b && (a + [x])[..|a|] == a;
  }

  ghost predicate Ascending(rows: seq<Row>, top: nat) {
    && (forall i, j :: 0 <= i < j < |rows| ==> rows[i].id < rows[j].id)
    && forall i :: 0 <= i < |rows| ==> 1 <= rows[i].id <= top
  }

  /** The rows are numbered from 1 on. */
  ghost predicate Numbered(rows: seq<Row>) {
    forall i :: 0 <= i < |rows| ==> rows[i].id == i + 1
  }

  ghost predicate FileHolds(s: State, d: Disk) {
    && ExchangesOf(d.rows) == s.committed
    && Numbered(d.rows) && d.lastId == |d.rows|
    && Ascending(d.rows, d.lastId)
    && d.agentName == (if s.first.Some? then Some(s.first.value.agentName) else None)
    && d.boundary == (if s.first.Some? then Some(s.first.value.boundary) else None)
  }

  ghost predicate Invariant(s: State) {
    && (s.file.None? ==> s.phase.Down? && s.begun == [] && s.committed == [] && s.first == None)
    && (s.file.Some? ==> FileHolds(s, s.file.value))
    && Progress(s)
  }

  /** At most one append per crash, and the one in progress, is begun but not committed, or committed but not
      returned. */
  ghost predicate Progress(s: State) {
    && (if s.phase.Committed? then
          s.committed != [] && s.committed[|s.committed| - 1] == s.phase.x
          && Subsequence(s.returned, s.committed[..|s.committed| - 1])
        else Subsequence(s.returned, s.committed))
    && (if s.phase.Appending? then
          s.begun != [] && s.begun[|s.begun| - 1] == s.phase.x && Subsequence(s.committed, s.begun[..|s.begun| - 1])
        else Subsequence(s.committed, s.begun))
    && |s.begun| <= |s.returned| + s.crashes + if s.phase.Appending? || s.phase.Committed? then 1 else 0
  }

  lemma FrontAndLast(a: Tape, b: Tape, x: Exchange)
    requires b != [] && b[|b| - 1] == x && Subsequence(a, b[..|b| - 1])
    ensures Subsequence(a, b) && Subsequence(a + [x], b)
  {
    SubsequenceSkip(a, b[..|b| - 1], x);
    assert b[..|b| - 1] + [x] == b;
  }

  lemma CommitProgress(s: State)
    requires Progress(s) && Enabled(s, Commit)
    ensures Progress(Step(s, Commit))
  {
    FrontAndLast(s.committed, s.begun, s.phase.x);
    assert (s.committed + [s.phase.x])[..|s.committed|] == s.committed;
  }

  lemma ReturnProgress(s: State)
    requires Progress(s) && Enabled(s, Action.Return)
    ensures Progress(Step(s, Action.Return))
  {
    FrontAndLast(s.returned, s.committed, s.phase.x);
  }

  lemma CrashProgress(s: State)
    requires Progress(s) && Enabled(s, Crash)
    ensures Progress(Step(s, Crash))
  {
    if s.phase.Committed? {
      FrontAndLast(s.returned, s.committed, s.phase.x);
    }
    if s.phase.Appending? {
      FrontAndLast(s.committed, s.begun, s.phase.x);
    }
  }

  lemma StepProgress(s: State, a: Action)
    requires Progress(s) && Enabled(s, a)
    ensures Progress(Step(s, a))
  {
    match a
    case Begin(x) =>
      assert (s.begun + [x])[..|s.begun|] == s.begun;
    case Commit => CommitProgress(s);
    case Return => ReturnProgress(s);
    case Crash => CrashProgress(s);
    case _ =>
  }

  lemma StepInvariant(s: State, a: Action)
    requires Invariant(s) && Enabled(s, a)
    ensures Invariant(Step(s, a))
  {
    StepProgress(s, a);
    if a.Commit? {
      AppendHolds(s, s.file.value, s.phase.x);
    }
  }

  lemma AppendHolds(s: State, d: Disk, x: Exchange)
    requires FileHolds(s, d)
    ensures FileHolds(s.(committed := s.committed + [x]), AfterAppend(d, x))
  {
    assert ExchangesOf(d.rows + [Row(d.lastId + 1, x)]) == ExchangesOf(d.rows) + [x];
  }

  lemma {:induction false} Always(actions: seq<Action>, s: State)
    requires Reaches(actions, s)
    ensures Invariant(s)
  {
    if actions != [] {
      var last := |actions| - 1;
      var before := RunOf(actions[..last]).value;
      Always(actions[..last], before);
      StepInvariant(before, actions[last]);
    }
  }

  /** Some action of the run was of this kind. */
  predicate Did(actions: seq<Action>, what: Action -> bool) {
    exists i :: 0 <= i < |actions| && what(actions[i])
  }

  lemma DidNext(actions: seq<Action>, what: Action -> bool)
    requires actions != []
    ensures var last := |actions| - 1;
            Did(actions, what) <==> Did(actions[..last], what) || what(actions[last])
  {
    var last := |actions| - 1;
    if Did(actions[..last], what) {
      var i :| 0 <= i < last && what(actions[..last][i]);
      assert what(actions[i]);
    }
    if Did(actions, what) && !what(actions[last]) {
      var i :| 0 <= i < |actions| && what(actions[i]);
      assert what(actions[..last][i]);
    }
  }

  function IsCreate(): Action -> bool {
    (a: Action) => a.Create?
  }

  function IsFlag(): Action -> bool {
    (a: Action) => a.Flag?
  }

  lemma {:induction false} MarksOf(actions: seq<Action>, s: State)
    requires Reaches(actions, s)
    ensures s.file.Some? <==> Did(actions, IsCreate())
    ensures s.file.Some? && s.file.value.finalized <==> Did(actions, IsFlag())
  {
    if actions != [] {
      var last := |actions| - 1;
      MarksOf(actions[..last], RunOf(actions[..last]).value);
      DidNext(actions, IsCreate());
      DidNext(actions, IsFlag());
    }
  }

  /** What a reader finds at any moment of any run: no file exactly before the first opening; the flag exactly after a
      finalization has set it; the name given at the first opening, and as many exchanges as have been committed,
      numbered from 1. */
  lemma StatusIs(actions: seq<Action>, s: State)
    requires Reaches(actions, s)
    ensures RecoveryOf(s.file) == NoFile <==> !Did(actions, IsCreate())
    ensures s.file.Some? ==>
              var d := s.file.value;
              && StatusRead(d, d) == Status(Did(actions, IsFlag()), if s.first.Some? then s.first.value.agentName else "",
                                            |s.committed|)
              && Numbered(d.rows) && ExchangesOf(d.rows) == s.committed
  {
    Always(actions, s);
    MarksOf(actions, s);
  }

  /** Whatever crashes have happened, an unfinalized checkpoint recovers to exactly the committed exchanges in
      order, which include every append that returned and lack at most one begun append per crash and the one in
      progress. */
  lemma CrashRecovery(actions: seq<Action>, s: State)
    requires Reaches(actions, s) && s.file.Some? && !s.file.value.finalized
    ensures var r := RecoveryOf(s.file);
            && r == Recovered(SavedTape(if s.first.Some? then s.first.value.agentName else "",
                                        if s.first.Some? then s.first.value.boundary else DEFAULT_BOUNDARY,
                                        s.committed, []), false)
            && Subsequence(s.returned, r.tape.exchanges)
            && Subsequence(r.tape.exchanges, s.begun)
            && |s.begun| <= |r.tape.exchanges| + s.crashes + 1
            && (s.phase.Idle? || s.phase.Down? ==> |s.begun| <= |s.returned| + s.crashes)
  {
    Always(actions, s);
    if s.phase.Committed? {
      FrontAndLast(s.returned, s.committed, s.phase.x);
    }
    if s.phase.Appending? {
      FrontAndLast(s.committed, s.begun, s.phase.x);
    }
    SubsequenceLength(s.returned, s.committed);
  }

  lemma {:induction false} SubsequenceLength(a: Tape, b: Tape)
    requires Subsequence(a, b)
    ensures |a| <= |b|
  {
    if b != [] {
      if Subsequence(a, b[..|b| - 1]) {
        SubsequenceLength(a, b[..|b| - 1]);
      } else {
        SubsequenceLength(a[..|a| - 1], b[..|b| - 1]);
      }
    }
  }

  // ---- what a finalized checkpoint recovers to -------------------------------------------------------------

  /** The last action that wrote the tape tables. */
  function LastWrite(actions: seq<Action>): Option<Action> {
    if actions == [] then None
    else
      var a := actions[|actions| - 1];
      if a.Drop? || a.Recreate? || a.Save? then Some(a) else LastWrite(actions[..|actions| - 1])
  }

  /** The tape of the last finalization that got as far as saving one. */
  function LatestTape(actions: seq<Action>): Option<SavedTape> {
    if actions == [] then None
    else
      var a := actions[|actions| - 1];
      if a.Save? then Some(a.tape) else LatestTape(actions[..|actions| - 1])
  }

  function Written(a: Option<Action>): Option<SavedTape> {
    match a
    case Some(Save(tape)) => Some(tape)
    case Some(Recreate) => Some(EMPTY_TAPE)
    case _ => None
  }

  /** Whatever else has happened, the last write of the tape tables decides what they hold. */
  lemma {:induction false} LastWriteDecides(actions: seq<Action>, s: State)
    requires Reaches(actions, s)
    ensures s.file.Some? ==> s.file.value.saved == Written(LastWrite(actions))
    ensures s.file.None? ==> LastWrite(actions) == None
    ensures s.phase.Saved? || (s.file.Some? && s.file.value.finalized) ==> LatestTape(actions).Some?
    ensures LastWrite(actions).Some? && LastWrite(actions).value.Save? ==>
              LatestTape(actions) == Some(LastWrite(actions).value.tape)
  {
    if actions != [] {
      var last := |actions| - 1;
      var before := RunOf(actions[..last]).value;
      LastWriteDecides(actions[..last], before);
    }
  }

  /** A checkpoint with the flag set recovers to the tape its latest finalization saved, if and only if no later
      finalization has begun to write; otherwise there is no tape to load, or an empty one. */
  lemma FinalizedRecovery(actions: seq<Action>, s: State)
    requires Reaches(actions, s) && s.file.Some? && s.file.value.finalized
    ensures LatestTape(actions).Some? && LastWrite(actions).Some?
    ensures RecoveryOf(s.file) == (match LastWrite(actions).value
                                   case Drop => NoSavedTape
                                   case Recreate => Recovered(EMPTY_TAPE, true)
                                   case _ => Recovered(LatestTape(actions).value, true))
    ensures RecoveryOf(s.file) == Recovered(LatestTape(actions).value, true) <==>
              LastWrite(actions).value.Save?
              || (LastWrite(actions).value.Recreate? && LatestTape(actions).value == EMPTY_TAPE)
  {
    LastWriteDecides(actions, s);
    SaveIsWrite(actions);
  }

  lemma {:induction false} SaveIsWrite(actions: seq<Action>)
    ensures LatestTape(actions).Some? ==> LastWrite(actions).Some?
    ensures LastWrite(actions).Some? ==>
              LastWrite(actions).value.Drop? || LastWrite(actions).value.Recreate? || LastWrite(actions).value.Save?
  {
    if actions != [] {
      SaveIsWrite(actions[..|actions| - 1]);
    }
  }

  /** Every finalization saves the log as it is committed by then. */
  ghost predicate SavesTheLog(actions: seq<Action>) {
    if actions == [] then true
    else
      var front, a := actions[..|actions| - 1], actions[|actions| - 1];
      SavesTheLog(front) && (a.Save? && RunOf(front).Some? ==> a.tape.exchanges == RunOf(front).value.committed)
  }

  /** Some append was committed after the last write of the tape tables. */
  predicate CommitSinceWrite(actions: seq<Action>) {
    if actions == [] then false
    else
      var a := actions[|actions| - 1];
      !(a.Drop? || a.Recreate? || a.Save?) && (a.Commit? || CommitSinceWrite(actions[..|actions| - 1]))
  }

  lemma {:induction false} SavedLog(actions: seq<Action>, s: State)
    requires Reaches(actions, s) && SavesTheLog(actions)
    requires LastWrite(actions).Some? && LastWrite(actions).value.Save?
    ensures var saved := LastWrite(actions).value.tape.exchanges;
            |saved| <= |s.committed| && (saved == s.committed <==> !CommitSinceWrite(actions))
            && (CommitSinceWrite(actions) ==> |saved| < |s.committed|)
  {
    var last := |actions| - 1;
    if !actions[last].Save? {
      SavedLog(actions[..last], RunOf(actions[..last]).value);
    }
  }

  /** Where finalizations save the log, recovery from a set flag gives the committed exchanges if and only if the last
      write of the tape tables was such a save and nothing has been committed since, or the tables were left empty
      over an empty log. */
  lemma FinalizedLogIff(actions: seq<Action>, s: State)
    requires Reaches(actions, s) && s.file.Some? && s.file.value.finalized && SavesTheLog(actions)
    ensures LastWrite(actions).Some?
    ensures RecoveryOf(s.file).Recovered? && RecoveryOf(s.file).tape.exchanges == s.committed <==>
              || (LastWrite(actions).value.Save? && !CommitSinceWrite(actions))
              || (LastWrite(actions).value.Recreate? && s.committed == [])
  {
    FinalizedRecovery(actions, s);
    LastWriteDecides(actions, s);
    if LastWrite(actions).value.Save? {
      SavedLog(actions, s);
    }
  }

  // ---- restarted processes --------------------------------------------------------------------------------

  /** How many exchanges had been committed when the process last started was opened. */
  function OpenedAt(actions: seq<Action>): nat {
    if actions == [] then 0
    else
      var front, a := actions[..|actions| - 1], actions[|actions| - 1];
      if a.Create? && RunOf(front).Some? then |RunOf(front).value.committed| else OpenedAt(front)
  }

  /** The same for the process that last wrote the tape tables. */
  function WriterOpenedAt(actions: seq<Action>): nat {
    if actions == [] then 0
    else
      var front, a := actions[..|actions| - 1], actions[|actions| - 1];
      if a.Drop? || a.Recreate? || a.Save? then OpenedAt(front) else WriterOpenedAt(front)
  }

  /** Every finalization saves what its own process committed, and no exchange of an earlier one. */
  ghost predicate SavesItsSession(actions: seq<Action>) {
    if actions == [] then true
    else
      var front, a := actions[..|actions| - 1], actions[|actions| - 1];
      SavesItsSession(front)
      && (a.Save? && RunOf(front).Some? && OpenedAt(front) <= |RunOf(front).value.committed| ==>
            a.tape.exchanges == RunOf(front).value.committed[OpenedAt(front)..])
  }

  lemma {:induction false} OpenedWithin(actions: seq<Action>, s: State)
    requires Reaches(actions, s)
    ensures OpenedAt(actions) <= |s.committed|
  {
    if actions != [] {
      var last := |actions| - 1;
      OpenedWithin(actions[..last], RunOf(actions[..last]).value);
    }
  }

  /** `saved` is the piece of `log` that starts at `at`, and reaches its end unless there is `more`. */
  ghost predicate Piece(saved: Tape, log: Tape, at: nat, more: bool) {
    && at + |saved| <= |log| && saved == log[at..at + |saved|]
    && (more <==> at + |saved| < |log|)
  }

  lemma {:induction false} SavedSession(actions: seq<Action>, s: State)
    requires Reaches(actions, s) && SavesItsSession(actions)
    requires LastWrite(actions).Some? && LastWrite(actions).value.Save?
    ensures Piece(LastWrite(actions).value.tape.exchanges, s.committed, WriterOpenedAt(actions), CommitSinceWrite(actions))
  {
    var last := |actions| - 1;
    var before := RunOf(actions[..last]).value;
    if actions[last].Save? {
      OpenedWithin(actions[..last], before);
    } else {
      SavedSession(actions[..last], before);
      PieceGrows(LastWrite(actions).value.tape.exchanges, before.committed, WriterOpenedAt(actions),
                 CommitSinceWrite(actions[..last]), s.committed[|before.committed|..]);
      assert s.committed == before.committed + s.committed[|before.committed|..];
    }
  }

  lemma PieceGrows(saved: Tape, log: Tape, at: nat, more: bool, added: Tape)
    requires Piece(saved, log, at, more)
    ensures Piece(saved, log + added, at, more || added != [])
  {
    assert (log + added)[at..at + |saved|] == log[at..at + |saved|];
  }

  /** Where finalizations save their own process's exchanges, a set flag over a saved tape gives the piece of the log
      that process committed; that is the whole log if and only if the log was empty when it started and nothing has
      been committed since. */
  lemma FinalizedSessionIff(actions: seq<Action>, s: State)
    requires Reaches(actions, s) && s.file.Some? && s.file.value.finalized && SavesItsSession(actions)
    ensures LastWrite(actions).Some?
    ensures LastWrite(actions).value.Save? ==>
              && RecoveryOf(s.file).Recovered?
              && Piece(RecoveryOf(s.file).tape.exchanges, s.committed, WriterOpenedAt(actions), CommitSinceWrite(actions))
    ensures RecoveryOf(s.file).Recovered? && RecoveryOf(s.file).tape.exchanges == s.committed <==>
              || (LastWrite(actions).value.Save? && WriterOpenedAt(actions) == 0 && !CommitSinceWrite(actions))
              || (LastWrite(actions).value.Recreate? && s.committed == [])
  {
    FinalizedRecovery(actions, s);
    LastWriteDecides(actions, s);
    if LastWrite(actions).value.Save? {
      SavedSession(actions, s);
    }
  }

  /** No two finalizations begin. */
  ghost predicate FinalizedAtMostOnce(actions: seq<Action>) {
    forall i, j :: 0 <= i < j < |actions| ==> !(actions[i].Drop? && actions[j].Drop?)
  }

  function IsDrop(): Action -> bool {
    (a: Action) => a.Drop?
  }

  lemma OnlyOneDrop(actions: seq<Action>)
    requires actions != [] && FinalizedAtMostOnce(actions)
    ensures FinalizedAtMostOnce(actions[..|actions| - 1])
    ensures actions[|actions| - 1].Drop? ==> !Did(actions[..|actions| - 1], IsDrop())
  {
    var last := |actions| - 1;
    forall i | 0 <= i < last ensures actions[..last][i] == actions[i] {
    }
  }

  lemma {:induction false} OneFinalization(actions: seq<Action>, s: State)
    requires Reaches(actions, s) && FinalizedAtMostOnce(actions)
    ensures s.phase.Dropped? || s.phase.Emptied? || s.phase.Saved? || (s.file.Some? && s.file.value.finalized) ==>
              Did(actions, IsDrop())
    ensures s.phase.Saved? || (s.file.Some? && s.file.value.finalized) ==>
              LastWrite(actions).Some? && LastWrite(actions).value.Save?
  {
    if actions != [] {
      var last := |actions| - 1;
      OnlyOneDrop(actions);
      DidNext(actions, IsDrop());
      OneFinalization(actions[..last], RunOf(actions[..last]).value);
    }
  }

  /** With one finalization, as asked for, a set flag means its tape is recovered. */
  lemma FinalizedOnce(actions: seq<Action>, s: State)
    requires Reaches(actions, s) && s.file.Some? && s.file.value.finalized && FinalizedAtMostOnce(actions)
    ensures LatestTape(actions).Some? && RecoveryOf(s.file) == Recovered(LatestTape(actions).value, true)
  {
    OneFinalization(actions, s);
    FinalizedRecovery(actions, s);
  }

  // ---- two runs that lose exchanges ------------------------------------------------------------------------

  function Opening(): seq<Action> {
    [Create, Register("a", "b")]
  }

  function Finalizing(tape: SavedTape): seq<Action> {
    [Drop, Recreate, Action.Save(tape), Flag]
  }

  lemma {:induction false} RunMore(actions: seq<Action>, a: Action)
    ensures RunOf(actions + [a])
         == if RunOf(actions).Some? && Enabled(RunOf(actions).value, a) then Some(Step(RunOf(actions).value, a)) else None
  {
    assert (actions + [a])[..|actions|] == actions;
  }

  lemma OpenedRun()
    ensures RunOf(Opening()) == Some(START.(file := Some(Disk([], 0, Some("a"), Some("b"), false, None)),
                                            phase := Idle, first := Some(Naming("a", "b"))))
  {
    RunMore([], Create);
    RunMore([Create], Register("a", "b"));
    assert [] + [Create] == [Create] && [Create] + [Register("a", "b")] == Opening();
  }

  /** The first half of finalizing, from an idle writer. */
  lemma EmptiedRun(actions: seq<Action>)
    requires RunOf(actions).Some? && RunOf(actions).value.phase.Idle? && RunOf(actions).value.file.Some?
    ensures var s := RunOf(actions).value;
            RunOf(actions + [Drop] + [Recreate]) == Some(s.(file := Some(AfterRecreate(s.file.value)), phase := Emptied))
  {
    RunMore(actions, Drop);
    RunMore(actions + [Drop], Recreate);
  }

  /** Finalizing from an idle writer. */
  lemma FinalizedRun(actions: seq<Action>, tape: SavedTape)
    requires RunOf(actions).Some? && RunOf(actions).value.phase.Idle? && RunOf(actions).value.file.Some?
    ensures var s := RunOf(actions).value;
            RunOf(actions + Finalizing(tape)) == Some(s.(file := Some(AfterFlag(AfterSave(s.file.value, tape)))))
  {
    EmptiedRun(actions);
    RunMore(actions + [Drop] + [Recreate], Action.Save(tape));
    RunMore(actions + [Drop] + [Recreate] + [Action.Save(tape)], Flag);
    assert actions + [Drop] + [Recreate] + [Action.Save(tape)] + [Flag] == actions + Finalizing(tape);
  }

  /** Appending from an idle writer. */
  lemma AppendedRun(actions: seq<Action>, x: Exchange)
    requires RunOf(actions).Some? && RunOf(actions).value.phase.Idle? && RunOf(actions).value.file.Some?
    ensures var s := RunOf(actions).value;
            RunOf(actions + [Begin(x), Commit, Action.Return])
            == Some(s.(file := Some(AfterAppend(s.file.value, x)), begun := s.begun + [x],
                       committed := s.committed + [x], returned := s.returned + [x]))
  {
    RunMore(actions, Begin(x));
    RunMore(actions + [Begin(x)], Commit);
    RunMore(actions + [Begin(x)] + [Commit], Action.Return);
    assert actions + [Begin(x)] + [Commit] + [Action.Return] == actions + [Begin(x), Commit, Action.Return];
  }

  /** Finalizing a checkpoint that is already finalized, and crashing half-way: the flag is still set, and there is no
      tape, or an empty one, to recover. */
  lemma SecondFinalizationIsUnsafe(tape: SavedTape)
    ensures var s := RunOf(Opening() + Finalizing(tape) + [Drop, Crash]);
            s.Some? && RecoveryOf(s.value.file) == NoSavedTape
    ensures var s := RunOf(Opening() + Finalizing(tape) + [Drop, Recreate, Crash]);
            s.Some? && RecoveryOf(s.value.file) == Recovered(EMPTY_TAPE, true)
  {
    OpenedRun();
    FinalizedRun(Opening(), tape);
    CrashedHalfWay(Opening() + Finalizing(tape));
    CrashedEmpty(Opening() + Finalizing(tape));
  }

  lemma CrashedEmpty(actions: seq<Action>)
    requires RunOf(actions).Some? && RunOf(actions).value.phase.Idle? && RunOf(actions).value.file.Some?
    ensures var s := RunOf(actions).value;
            RunOf(actions + [Drop, Recreate, Crash])
            == Some(s.(file := Some(AfterRecreate(s.file.value)), phase := Down, crashes := s.crashes + 1))
  {
    EmptiedRun(actions);
    RunMore(actions + [Drop] + [Recreate], Crash);
    assert actions + [Drop] + [Recreate] + [Crash] == actions + [Drop, Recreate, Crash];
  }

  lemma CrashedHalfWay(actions: seq<Action>)
    requires RunOf(actions).Some? && RunOf(actions).value.phase.Idle? && RunOf(actions).value.file.Some?
    ensures var s := RunOf(actions).value;
            RunOf(actions + [Drop, Crash])
            == Some(s.(file := Some(AfterDrop(s.file.value)), phase := Down, crashes := s.crashes + 1))
  {
    RunMore(actions, Drop);
    RunMore(actions + [Drop], Crash);
    assert actions + [Drop] + [Crash] == actions + [Drop, Crash];
  }

  /** Appending after finalizing loses the exchange: the append returns, but recovery still gives the tape saved
      before. */
  lemma AppendAfterFinalizeIsLost(x: Exchange, tape: SavedTape)
    ensures var s := RunOf(Opening() + Finalizing(tape) + [Begin(x), Commit, Action.Return]);
            s.Some? && s.value.returned == [x] && RecoveryOf(s.value.file) == Recovered(tape, true)
  {
    OpenedRun();
    FinalizedRun(Opening(), tape);
    AppendedRun(Opening() + Finalizing(tape), x);
  }

  /** A process that crashes after an append, and its successor that appends one more and finalizes its own tape: the
      first append returned, but is not recovered. */
  lemma RestartLosesEarlierRows(x: Exchange, y: Exchange)
    ensures var s := RunOf(Opening() + [Begin(x), Commit, Action.Return] + [Crash] + Opening()
                           + [Begin(y), Commit, Action.Return] + Finalizing(SavedTape("a", "b", [y], [])));
            s.Some? && s.value.returned == [x, y]
            && RecoveryOf(s.value.file) == Recovered(SavedTape("a", "b", [y], []), true)
  {
    var first := Opening() + [Begin(x), Commit, Action.Return];
    OpenedRun();
    AppendedRun(Opening(), x);
    RunMore(first, Crash);
    Reopened(first + [Crash]);
    AppendedRun(first + [Crash] + Opening(), y);
    FinalizedRun(first + [Crash] + Opening() + [Begin(y), Commit, Action.Return], SavedTape("a", "b", [y], []));
  }

  lemma Reopened(actions: seq<Action>)
    requires RunOf(actions).Some? && RunOf(actions).value.phase.Down?
    requires RunOf(actions).value.file.Some? && RunOf(actions).value.first.Some?
    ensures var s := RunOf(actions).value;
            RunOf(actions + Opening()) == Some(s.(file := Some(AfterOpen(s.file.value, "a", "b")), phase := Idle))
  {
    RunMore(actions, Create);
    RunMore(actions + [Create], Register("a", "b"));
    assert actions + [Create] + [Register("a", "b")] == actions + Opening();
  }

  // ---- the tailing reader ---------------------------------------------------------------------------------

  /** `later` is a state the file can grow into: rows are only appended, and the flag stays set. */
  ghost predicate GrowsInto(d: Disk, later: Disk) {
    && d.rows <= later.rows && (d.finalized ==> later.finalized)
    && Ascending(later.rows, later.lastId) && Ascending(d.rows, d.lastId)
  }

  lemma StepsGrow(s: State, a: Action)
    requires Invariant(s) && s.file.Some? && Enabled(s, a)
    ensures GrowsInto(s.file.value, Step(s, a).file.value)
  {
    StepInvariant(s, a);
  }

  /** From any moment of a run to any later one, crashes and finalizations included, the file only grows. */
  lemma {:induction false} RunGrows(actions: seq<Action>, k: nat, early: State, s: State)
    requires k <= |actions| && Reaches(actions[..k], early) && Reaches(actions, s) && early.file.Some?
    ensures s.file.Some? && GrowsInto(early.file.value, s.file.value)
  {
    if k == |actions| {
      assert actions[..k] == actions;
      Always(actions, s);
    } else {
      var last := |actions| - 1;
      var before := RunOf(actions[..last]).value;
      assert actions[..last][..k] == actions[..k];
      RunGrows(actions[..last], k, early, before);
      Always(actions[..last], before);
      StepsGrow(before, actions[last]);
    }
  }

  /** The file as one round of the reader finds it: at its poll for rows, its read of the metadata and its row count. */
  datatype Round = Round(poll: Disk, meta: Disk, count: Disk)

  /** Between any two of these reads the writer may have committed any number of times. */
  ghost predicate History(rounds: seq<Round>) {
    && (forall i :: 0 <= i < |rounds| ==> InOrder(rounds[i]))
    && forall i :: 0 <= i < |rounds| - 1 ==> GrowsInto(rounds[i].poll, rounds[i + 1].poll)
  }

  ghost predicate InOrder(r: Round) {
    GrowsInto(r.poll, r.poll) && GrowsInto(r.poll, r.meta) && GrowsInto(r.meta, r.count) && GrowsInto(r.poll, r.count)
  }

  lemma {:induction false} RowsAfterAppend(a: seq<Row>, b: seq<Row>, since: int)
    ensures RowsAfter(a + b, since) == RowsAfter(a, since) + RowsAfter(b, since)
  {
    if b == [] {
      assert a + b == a;
    } else {
      var last := |b| - 1;
      RowsAfterAppend(a, b[..last], since);
      assert (a + b)[..|a| + last] == a + b[..last];
    }
  }

  lemma {:induction false} AllAfter(rows: seq<Row>, since: int)
    requires forall i :: 0 <= i < |rows| ==> rows[i].id > since
    ensures RowsAfter(rows, since) == rows
  {
    if rows != [] {
      AllAfter(rows[..|rows| - 1], since);
    }
  }

  lemma {:induction false} NoneAfter(rows: seq<Row>, since: int)
    requires forall i :: 0 <= i < |rows| ==> rows[i].id <= since
    ensures RowsAfter(rows, since) == []
  {
    if rows != [] {
      NoneAfter(rows[..|rows| - 1], since);
    }
  }

  /** The last id delivered. */
  function Seen(since: int, delivered: seq<Row>): int {
    if delivered == [] then since else delivered[|delivered| - 1].id
  }

  /** Where the reader stands after delivering all of `d` past `since`. */
  ghost predicate CaughtUp(d: Disk, since: int, delivered: seq<Row>, seen: int) {
    delivered == RowsAfter(d.rows, since) && seen == Seen(since, delivered)
  }

  lemma {:induction false} LastAfter(rows: seq<Row>, since: int)
    requires forall i, j :: 0 <= i < j < |rows| ==> rows[i].id < rows[j].id
    ensures var r := RowsAfter(rows, since);
            if r == [] then forall i :: 0 <= i < |rows| ==> rows[i].id <= since
            else rows != [] && r[|r| - 1] == rows[|rows| - 1] && rows[|rows| - 1].id > since
  {
    if rows != [] {
      LastAfter(rows[..|rows| - 1], since);
    }
  }

  /** Reading on from where the last poll stopped delivers just what has been committed since. */
  lemma PollContinues(d: Disk, later: Disk, since: int, delivered: seq<Row>, seen: int)
    requires GrowsInto(d, later) && CaughtUp(d, since, delivered, seen)
    ensures var more := RowsAfter(later.rows, seen);
            CaughtUp(later, since, delivered + more, Seen(seen, more))
  {
    if delivered == [] {
      assert delivered + RowsAfter(later.rows, since) == RowsAfter(later.rows, since);
    } else {
      var tail := later.rows[|d.rows|..];
      TailAfter(d, later, since, delivered, seen);
      assert delivered + tail == RowsAfter(later.rows, since);
    }
  }

  lemma TailAfter(d: Disk, later: Disk, since: int, delivered: seq<Row>, seen: int)
    requires GrowsInto(d, later) && CaughtUp(d, since, delivered, seen) && delivered != []
    ensures RowsAfter(later.rows, seen) == later.rows[|d.rows|..]
    ensures RowsAfter(later.rows, since) == delivered + later.rows[|d.rows|..]
  {
    var tail := later.rows[|d.rows|..];
    assert later.rows == d.rows + tail;
    RowsAfterAppend(d.rows, tail, since);
    RowsAfterAppend(d.rows, tail, seen);
    assert RowsAfter(d.rows, seen) == [] by {
      SeenCoversRows(d, since, delivered, seen);
      NoneAfter(d.rows, seen);
    }
    assert RowsAfter(tail, seen) == tail == RowsAfter(tail, since) by {
      TailIsLater(d, later, since, delivered, seen);
      AllAfter(tail, seen);
      AllAfter(tail, since);
    }
  }

  lemma SeenCoversRows(d: Disk, since: int, delivered: seq<Row>, seen: int)
    requires Ascending(d.rows, d.lastId) && CaughtUp(d, since, delivered, seen)
    ensures forall i :: 0 <= i < |d.rows| ==> d.rows[i].id <= seen
  {
    LastAfter(d.rows, since);
  }

  lemma TailIsLater(d: Disk, later: Disk, since: int, delivered: seq<Row>, seen: int)
    requires GrowsInto(d, later) && CaughtUp(d, since, delivered, seen) && delivered != []
    ensures seen > since
    ensures forall i :: 0 <= i < |later.rows[|d.rows|..]| ==> later.rows[|d.rows|..][i].id > seen
  {
    LastAfter(d.rows, since);
    assert seen == later.rows[|d.rows| - 1].id;
  }

  // ---- the polling loop -----------------------------------------------------------------------------------

  /** The polling loop against the file as its reads find it. It runs until a round finds the flag, or to the end of
      `rounds`. */
  method StreamCheckpoint(rounds: seq<Round>, since: int) returns (delivered: seq<Row>, done: Option<Status>, n: nat)
    requires History(rounds)
    ensures Streamed(rounds, since, delivered, done, n)
  {
    var seen := since;
    delivered, done, n := [], None, 0;
    while n < |rounds|
      invariant done == None && Polling(rounds, since, delivered, seen, n)
    {
      RoundReads(rounds, since, delivered, seen, n);
      var rows := RowsAfter(rounds[n].poll.rows, seen);
      delivered := delivered + rows;
      seen := Seen(seen, rows);
      var status := StatusRead(rounds[n].meta, rounds[n].count);
      n := n + 1;
      if status.wasFinalized {
        return delivered, Some(status), n;
      }
    }
  }

  /** After `n` rounds the reader has delivered exactly the rows past `since` as of its last poll. It is done if that
      round, and none before, found the flag, and has else read to the end. The done frame reports what the round read;
      from the start, the delivery is everything committed by then exactly when it has as many as the frame says. */
  ghost predicate Streamed(rounds: seq<Round>, since: int, delivered: seq<Row>, done: Option<Status>, n: nat) {
    && n <= |rounds| && delivered == (if n == 0 then [] else RowsAfter(rounds[n - 1].poll.rows, since))
    && match done
       case None => n == |rounds| && Unflagged(rounds, n)
       case Some(status) => n > 0 && Unflagged(rounds, n - 1) && DoneAt(rounds[n - 1], since, delivered, status)
  }

  ghost predicate DoneAt(r: Round, since: int, delivered: seq<Row>, status: Status) {
    match r
    case Round(_, meta, count) =>
      && meta.finalized && Tells(status, r)
      && (since == 0 ==> (delivered == count.rows <==> |delivered| == status.exchangeCount))
  }

  lemma RoundDone(r: Round, since: int)
    requires GrowsInto(r.poll, r.count) && r.meta.finalized
    ensures DoneAt(r, since, RowsAfter(r.poll.rows, since), StatusRead(r.meta, r.count))
  {
    StatusTells(r);
    CompleteIffCountMatches(r.poll, r.count);
  }

  /** The name from the metadata, if it has one, and the number of rows at the count. */
  ghost predicate Tells(status: Status, r: Round) {
    match status
    case Status(wasFinalized, agentName, exchangeCount) =>
      && (wasFinalized <==> r.meta.finalized) && exchangeCount == |r.count.rows|
      && Some(agentName) == if r.meta.agentName == None then Some("") else r.meta.agentName
  }

  lemma StatusTells(r: Round)
    ensures Tells(StatusRead(r.meta, r.count), r)
    ensures StatusRead(r.meta, r.count).exchangeCount == |r.count.rows|
  {
  }

  /** None of the first `n` rounds found the flag. */
  ghost predicate Unflagged(rounds: seq<Round>, n: nat) {
    forall i :: 0 <= i < n && i < |rounds| ==> !rounds[i].meta.finalized
  }

  /** Where the reader stands after `n` rounds that did not find the flag. */
  ghost predicate Polling(rounds: seq<Round>, since: int, delivered: seq<Row>, seen: int, n: nat) {
    && n <= |rounds| && Unflagged(rounds, n)
    && if n == 0 then delivered == [] && seen == since else CaughtUp(rounds[n - 1].poll, since, delivered, seen)
  }

  lemma RoundReads(rounds: seq<Round>, since: int, delivered: seq<Row>, seen: int, n: nat)
    requires n < |rounds|
    ensures History(rounds) && Polling(rounds, since, delivered, seen, n) ==>
              var r, more := rounds[n], RowsAfter(rounds[n].poll.rows, seen);
              if r.meta.finalized then Streamed(rounds, since, delivered + more, Some(StatusRead(r.meta, r.count)), n + 1)
              else Polling(rounds, since, delivered + more, Seen(seen, more), n + 1)
  {
    if History(rounds) && Polling(rounds, since, delivered, seen, n) {
      RoundDelivers(rounds, since, delivered, seen, n);
      var more := RowsAfter(rounds[n].poll.rows, seen);
      if rounds[n].meta.finalized {
        assert InOrder(rounds[n]);
        RoundDone(rounds[n], since);
        StreamEnds(rounds, since, delivered + more, StatusRead(rounds[n].meta, rounds[n].count), n);
      } else {
        UnflaggedNext(rounds, n);
      }
    }
  }

  lemma StreamEnds(rounds: seq<Round>, since: int, all: seq<Row>, status: Status, n: nat)
    requires n < |rounds| && Unflagged(rounds, n) && all == RowsAfter(rounds[n].poll.rows, since)
    ensures DoneAt(rounds[n], since, all, status) ==> Streamed(rounds, since, all, Some(status), n + 1)
  {
  }

  lemma UnflaggedNext(rounds: seq<Round>, n: nat)
    requires n < |rounds| && Unflagged(rounds, n) && !rounds[n].meta.finalized
    ensures Unflagged(rounds, n + 1)
  {
  }

  lemma RoundDelivers(rounds: seq<Round>, since: int, delivered: seq<Row>, seen: int, n: nat)
    requires n < |rounds| && History(rounds) && Polling(rounds, since, delivered, seen, n)
    ensures var more := RowsAfter(rounds[n].poll.rows, seen);
            CaughtUp(rounds[n].poll, since, delivered + more, Seen(seen, more))
  {
    if n > 0 {
      assert GrowsInto(rounds[n - 1].poll, rounds[n - 1 + 1].poll);
      PollContinues(rounds[n - 1].poll, rounds[n].poll, since, delivered, seen);
    } else {
      assert [] + RowsAfter(rounds[n].poll.rows, since) == RowsAfter(rounds[n].poll.rows, since);
    }
  }

  /** What the reader has delivered is gap-free and repeats nothing: a run of consecutive rows of the file,
      starting with the first past `since`. */
  lemma {:induction false} DeliversConsecutively(rows: seq<Row>, since: int, top: nat) returns (from: nat)
    requires Ascending(rows, top)
    ensures from <= |rows| && RowsAfter(rows, since) == rows[from..]
    ensures (forall i :: from <= i < |rows| ==> rows[i].id > since) && (forall i :: 0 <= i < from ==> rows[i].id <= since)
  {
    if rows == [] || rows[|rows| - 1].id <= since {
      from := |rows|;
      forall i | 0 <= i < |rows| ensures rows[i].id <= since {
        assert i < |rows| - 1 ==> rows[i].id < rows[|rows| - 1].id;
      }
      NoneAfter(rows, since);
    } else {
      var front := rows[..|rows| - 1];
      from := DeliversConsecutively(front, since, top);
      OneMoreDelivered(rows, since, from);
      forall i | 0 <= i < |front| ensures rows[i].id > since <==> from <= i {
        assert rows[i] == front[i];
      }
    }
  }

  lemma OneMoreDelivered(rows: seq<Row>, since: int, from: nat)
    requires from < |rows| && rows[|rows| - 1].id > since
    requires RowsAfter(rows[..|rows| - 1], since) == rows[..|rows| - 1][from..]
    ensures RowsAfter(rows, since) == rows[from..]
  {
    assert rows[from..] == rows[..|rows| - 1][from..] + [rows[|rows| - 1]];
  }

  /** A poll of a reachable file past row `since` gives all but its first `since` rows. */
  lemma PollSkips(actions: seq<Action>, s: State, since: nat)
    requires Reaches(actions, s) && s.file.Some?
    ensures var rows := s.file.value.rows;
            RowsAfter(rows, since) == if since <= |rows| then rows[since..] else []
  {
    Always(actions, s);
    var rows := s.file.value.rows;
    var from := DeliversConsecutively(rows, since, s.file.value.lastId);
    if from < |rows| {
      assert rows[from].id == from + 1;
    }
    if from > 0 {
      assert rows[from - 1].id == from;
    }
  }

  /** Of the rows of a file, a poll of an earlier state from the start has them all exactly when it has as many. */
  lemma CompleteIffCountMatches(poll: Disk, count: Disk)
    requires GrowsInto(poll, count)
    ensures RowsAfter(poll.rows, 0) == poll.rows
    ensures RowsAfter(poll.rows, 0) == count.rows <==> |RowsAfter(poll.rows, 0)| == |count.rows|
  {
    AllAfter(poll.rows, 0);
  }

  /** A run in which one exchange is recorded and the checkpoint finalized. */
  function ShortRun(x: Exchange): seq<Action> {
    Opening() + [Begin(x), Commit, Action.Return] + Finalizing(SavedTape("a", "b", [x], []))
  }

  lemma ShortRunEnds(x: Exchange)
    ensures ShortRun(x)[..2] == Opening()
    ensures RunOf(Opening()).Some? && RunOf(ShortRun(x)).Some?
    ensures var early, late := RunOf(Opening()).value, RunOf(ShortRun(x)).value;
            && early.file.Some? && early.file.value.rows == [] && late.file.Some? && late.file.value.finalized
            && |late.file.value.rows| == 1 && GrowsInto(early.file.value, late.file.value)
  {
    OpenedRun();
    AppendedRun(Opening(), x);
    FinalizedRun(Opening() + [Begin(x), Commit, Action.Return], SavedTape("a", "b", [x], []));
    assert ShortRun(x)[..2] == Opening();
    RunGrows(ShortRun(x), 2, RunOf(Opening()).value, RunOf(ShortRun(x)).value);
  }

  /** Polled just after the opening; the status read at the end. */
  function LateRound(x: Exchange): Round {
    Round(FileOf(RunOf(Opening())), FileOf(RunOf(ShortRun(x))), FileOf(RunOf(ShortRun(x))))
  }

  function FileOf(s: Option<State>): Disk {
    if s.Some? && s.value.file.Some? then s.value.file.value else EMPTY_DISK
  }

  lemma LateRoundMisses(x: Exchange)
    ensures var r := LateRound(x);
            InOrder(r) && RowsAfter(r.poll.rows, 0) == [] && r.meta.finalized && |r.count.rows| == 1
  {
    ShortRunEnds(x);
    Always(ShortRun(x), RunOf(ShortRun(x)).value);
  }

  /** The done frame can count what was never delivered: a reader of that run that polls just after the opening and
      reads the status at the end misses the row. */
  method DoneCanBeIncomplete(x: Exchange) returns (delivered: seq<Row>, done: Option<Status>)
    ensures done.Some? && done.value.exchangeCount == 1 && delivered == []
  {
    LateRoundMisses(x);
    var n;
    delivered, done, n := StreamCheckpoint([LateRound(x)], 0);
  }
}
