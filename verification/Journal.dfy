/**
 The writers of one stream (journal.py): a constructor that repairs a truncated
 tail and replays what is left, and an append that refuses any file state it did
 not expect. Then everything together: any schedule of appends, new writers,
 reads and outside mutations.
 */
module Journal {
  import opened Wrappers
  import opened JournalText
  import opened JournalDisk
  import opened JournalReader

  const RESERVED: set<string> :=
    {"event_type", "run_id", "seq", "hash", "decision_id", "order_id", "ts_utc"}

  /** Rows numbered 1, 2, 3, … */
  ghost predicate Numbered(rows: seq<Row>) {
    forall i :: 0 <= i < |rows| ==> rows[i].seqNo == i + 1
  }

  function LastSeq(rows: seq<Row>): int {
    if rows == [] then 0 else rows[|rows| - 1].seqNo
  }

  class JournalWriter {
    const disk: Disk
    const state: StreamState
    const codec: Codec
    const runId: string

    constructor (disk: Disk, state: StreamState, codec: Codec, runId: string)
      ensures this.disk == disk && this.state == state && this.codec == codec && this.runId == runId
    {
      this.disk, this.state, this.codec, this.runId := disk, state, codec, runId;
    }

    ghost predicate Valid() reads disk, state {
      && disk.Valid()
      && StreamOk(state.View(), disk.versions)
      && (state.sound && state.initialized ==> Chained(state.trail))
    }

    /** Asks the descriptor, then the path; do they agree? */
    method StatBoth(fd: nat) returns (same: bool, seen: FileState)
      requires disk.Valid() && fd in disk.inodes
      modifies disk
      ensures disk.Valid() && Steps(old(disk.View()), disk.View())
      ensures seen.ino == fd && fd in disk.inodes
      ensures same ==> disk.PathState() == Some(seen) == Some(disk.StateOf(fd)) && Known(disk.versions, seen)
      ensures same ==> ContentOf(disk.versions, seen) == disk.Content()
      ensures Quiet(old(disk.View()), disk.View()) ==> seen == disk.StateOf(fd) && (same <==> disk.path == Some(fd))
    {
      ghost var v0 := disk.View();
      seen := disk.Fstat(fd);
      ghost var v1 := disk.View();
      var pathState := disk.StatPath();
      StepsCompose(v0, v1, disk.View());
      same := pathState == Some(seen);
    }

    /** Cuts an unterminated tail off the open file and reads it again. */
    method RepairTail(fd: nat, before: FileState, data: Bytes, pad: char)
      returns (stable: bool, snapshot: FileState, repaired: Bytes)
      requires disk.Valid() && fd in disk.inodes && before.ino == fd
      modifies disk
      ensures disk.Valid() && Evolves(old(disk.View()), disk.View())
      ensures stable ==> fd in disk.inodes && disk.PathState() == Some(snapshot)
      ensures stable ==> Known(disk.versions, snapshot) && ContentOf(disk.versions, snapshot) == repaired
      ensures Quiet(old(disk.View()), disk.View()) && old(disk.path) == Some(fd) && old(disk.inodes)[fd].data == data
              ==> stable && disk.path == Some(fd) && repaired == Complete(data)
    {
      ghost var v0 := disk.View();
      stable, snapshot := CutTail(fd, before, CompleteLength(data), pad);
      ghost var v1 := disk.View();
      repaired := [];
      if stable {
        stable, repaired := disk.ReadStable(fd, snapshot, 0);
        EvolvesCompose(v0, v1, disk.View());
      }
    }

    /** Truncates, and asks the descriptor and the path what became of it. */
    method CutTail(fd: nat, before: FileState, size: nat, pad: char) returns (stable: bool, snapshot: FileState)
      requires disk.Valid() && fd in disk.inodes && before.ino == fd
      modifies disk
      ensures disk.Valid() && Evolves(old(disk.View()), disk.View())
      ensures stable ==> fd in disk.inodes && disk.PathState() == Some(snapshot) == Some(disk.StateOf(fd))
      ensures Quiet(old(disk.View()), disk.View()) && old(disk.path) == Some(fd) && size <= |old(disk.inodes)[fd].data|
              ==> stable && disk.path == Some(fd) && disk.Content() == old(disk.inodes)[fd].data[..size]
    {
      ghost var v0 := disk.View();
      disk.Truncate(fd, size, pad);
      ghost var v1 := disk.View();
      stable, snapshot := StatBoth(fd);
      EvolvesCompose(v0, v1, disk.View());
      stable := stable && snapshot.ino == before.ino && snapshot.size == size;
    }

    /** All bytes of one version of the open file, which the path leads to. */
    method ReadVersion(fd: nat) returns (stable: bool, before: FileState, data: Bytes)
      requires disk.Valid() && fd in disk.inodes
      modifies disk
      ensures disk.Valid() && Steps(old(disk.View()), disk.View())
      ensures before.ino == fd && fd in disk.inodes
      ensures stable ==> disk.PathState() == Some(before) && disk.Content() == data
      ensures Quiet(old(disk.View()), disk.View()) && old(disk.path) == Some(fd) ==> stable
    {
      ghost var v0 := disk.View();
      data := [];
      stable, before := StatBoth(fd);
      ghost var v1 := disk.View();
      if stable {
        stable, data := disk.ReadStable(fd, before, 0);
        StepsCompose(v0, v1, disk.View());
      }
    }

    /** The first half of a snapshot: the bytes of one version, repaired. */
    method ReadRepaired(fd: nat, pad: char)
      returns (stable: bool, snapshot: FileState, data: Bytes)
      requires disk.Valid() && fd in disk.inodes
      modifies disk
      ensures disk.Valid() && Evolves(old(disk.View()), disk.View())
      ensures stable ==> fd in disk.inodes && disk.PathState() == Some(snapshot)
      ensures stable ==> Known(disk.versions, snapshot) && ContentOf(disk.versions, snapshot) == data
      ensures Quiet(old(disk.View()), disk.View()) && old(disk.path) == Some(fd)
              ==> stable && disk.path == Some(fd) && data == Complete(old(disk.inodes)[fd].data)
    {
      ghost var v0 := disk.View();
      stable, snapshot, data := ReadVersion(fd);
      ghost var v1 := disk.View();
      if stable && data != [] && data[|data| - 1] != NL {
        stable, snapshot, data := RepairTail(fd, snapshot, data, pad);
        EvolvesCompose(v0, v1, disk.View());
      } else {
        CompleteLengthIsLastNewline(data, |data|);
      }
    }

    /** One attempt at a repaired, verified, path-stable first snapshot. */
    method SnapshotOnce(fd: nat, pad: char)
      returns (stable: bool, rows: Option<seq<Row>>, snapshot: FileState)
      requires disk.Valid() && fd in disk.inodes
      modifies disk
      ensures disk.Valid() && Evolves(old(disk.View()), disk.View())
      ensures stable ==> disk.PathState() == Some(snapshot)
      ensures stable ==> rows == ReplayRows(codec, disk.Content())
      ensures Quiet(old(disk.View()), disk.View()) && old(disk.path) == Some(fd)
              ==> stable && disk.Content() == Complete(old(disk.inodes)[fd].data)
    {
      ghost var v0 := disk.View();
      var data;
      stable, snapshot, data := ReadRepaired(fd, pad);
      ghost var v1 := disk.View();
      rows := None;
      if stable {
        rows := ReplayText(codec, data);
        stable := disk.Recheck(fd, snapshot);
        EvolvesCompose(v0, v1, disk.View());
      }
    }

    /** Repairs and replays the stream: its rows and the file state they stand
        for, or why there is none. */
    method StableInitialSnapshot(pad: char) returns (r: Result<(seq<Row>, Option<FileState>), JournalError>)
      requires disk.Valid()
      modifies disk
      ensures disk.Valid() && Evolves(old(disk.View()), disk.View())
      ensures r.Success? ==> disk.PathState() == r.value.1 && ReplayRows(codec, disk.Content()) == Some(r.value.0)
      ensures Quiet(old(disk.View()), disk.View()) ==>
        && disk.Content() == Complete(old(disk.Content()))
        && (r.Success? <==> CompleteRows(codec, old(disk.Content())).Some?)
    {
      ghost var v0 := disk.View();
      var attempt := 0;
      while attempt < 2
        invariant 0 <= attempt <= 2
        invariant disk.Valid() && Evolves(v0, disk.View())
        invariant attempt == 0 ==> disk.View() == v0
        invariant attempt > 0 ==> !Quiet(v0, disk.View())
      {
        ghost var v1 := disk.View();
        var fd := disk.Open();
        ghost var v2 := disk.View();
        EvolvesCompose(v0, v1, v2);
        if fd.None? {
          var there := disk.StatPath();
          EvolvesCompose(v0, v2, disk.View());
          if there.None? {
            assert CompleteRows(codec, []) == Some([]);
            return Success(([], None));
          }
        } else {
          var stable, rows, snapshot := SnapshotOnce(fd.value, pad);
          EvolvesCompose(v0, v2, disk.View());
          if stable {
            if Quiet(v0, disk.View()) {
              ReplayOfComplete(codec, old(disk.Content()));
            }
            if rows.None? {
              return Failure(CorruptLine);
            }
            return Success((rows.value, Some(snapshot)));
          }
        }
        attempt := attempt + 1;
      }
      r := Failure(Unstable);
    }

    /** __init__: a verified rebase onto whatever the file is now. When that is not
        what the last writer left, every reader's authorization is revoked. */
    method Initialize(pad: char) returns (r: Outcome<JournalError>)
      requires Valid()
      modifies disk, state
      ensures Valid() && Evolves(old(disk.View()), disk.View())
      ensures Continues(old(state.View()), state.View())
      ensures r.Fail? ==> state.View() == old(state.View()) && state.seqNo == old(state.seqNo)
      ensures state.sound == old(state.sound)
      ensures r.Pass? ==>
        && state.View() == Rebased(old(state.View()), disk.PathState(), disk.Content())
        && ReplayRows(codec, disk.Content()).Some?
        && state.seqNo == LastSeq(ReplayRows(codec, disk.Content()).value)
      ensures Quiet(old(disk.View()), disk.View()) ==>
        && disk.Content() == Complete(old(disk.Content()))
        && (r.Pass? <==> CompleteRows(codec, old(disk.Content())).Some?)
    {
      var snapshot := StableInitialSnapshot(pad);
      if snapshot.Failure? {
        return Fail(snapshot.error);
      }
      StreamOkIsStable(state.View(), old(disk.versions), disk.versions);
      RebasedOk(state.View(), disk.View(), snapshot.value.1, disk.Content());
      Rebase(snapshot.value.0, snapshot.value.1, disk.Content());
      r := Pass;
    }

    method Rebase(existing: seq<Row>, current: Option<FileState>, ghost content: Bytes)
      modifies state
      ensures state.View() == Rebased(old(state.View()), current, content)
      ensures state.seqNo == LastSeq(existing) && state.sound == old(state.sound)
    {
      if !state.initialized {
        state.initialized, state.lineage, state.generation := true, 1, 0;
        state.trail := [content];
      } else if state.fileState != current {
        state.lineage, state.generation := state.lineage + 1, 0;
        state.trail := [content];
      }
      state.seqNo := LastSeq(existing);
      state.fileState := current;
    }

    /** The row an append would write now. */
    function NextRow(entry: Entry): Row
      reads state
    {
      RowOf(entry, runId, state.seqNo + 1)
    }

    /** Opens the file the way the expected state demands and compares it, through
        the descriptor and through the path, with that state. */
    method OpenExpected() returns (fd: Option<nat>, before: Option<FileState>)
      requires Valid() && state.initialized
      modifies disk
      ensures disk.Valid() && Evolves(old(disk.View()), disk.View())
      ensures before.Some? ==>
        && fd.Some? && disk.path == fd
        && disk.PathState() == before
        && (state.fileState.Some? ==> before == state.fileState)
        && disk.Content() == state.trail[state.generation]
      ensures Quiet(old(disk.View()), disk.View()) ==>
        && disk.Content() == old(disk.Content())
        && (before.Some? <==> old(disk.PathState()) == state.fileState)
        && (before.None? ==> disk.PathState() == old(disk.PathState()))
    {
      ghost var v0 := disk.View();
      var expected := state.fileState;
      if expected.None? {
        fd := disk.CreateExclusive();
      } else {
        fd := disk.Open();
      }
      ghost var v1 := disk.View();
      EvolvesCompose(v0, v1, v1);
      before := None;
      if fd.None? {
        return;
      }
      var same, seen := StatBoth(fd.value);
      EvolvesCompose(v0, v1, disk.View());
      var asExpected := if expected.None? then seen.size == 0 else Some(seen) == expected;
      if asExpected && same {
        before := Some(seen);
      }
    }

    /** The row has been certified, and the stream record speaks of the file it left. */
    twostate predicate Recorded(row: Row, seen: Windows)
      requires old(disk.Valid()) && disk.Valid() && old(StreamOk(state.View(), disk.versions)) && old(state.initialized)
      reads disk, state
    {
      && Certified(old(state.View()), state.View(), Encode(codec, row), seen)
      && state.trail[state.generation] == disk.Content()
      && state.fileState == disk.PathState()
      && state.seqNo == old(state.seqNo) + 1
      && state.sound == (old(state.sound) && Spared(old(state.trail[state.generation]), seen))
    }

    /** append: refuses any file state but the one recorded, and records the new
        one only after checking that exactly its payload arrived. `landed` is how
        much of the payload reaches the file, `plan` what outsiders store in it
        while the append runs, besides anything else they do. The checks cannot see
        who wrote: `seen` is what outsiders did store last in either window. */
    method Append(entry: Entry, landed: nat, plan: Windows) returns (r: Result<Row, JournalError>, ghost seen: Windows)
      requires Valid() && state.initialized
      modifies disk, state
      ensures Valid() && Evolves(old(disk.View()), disk.View())
      ensures Continues(old(state.View()), state.View())
      ensures r.Failure? ==>
        state.View() == old(state.View()) && state.seqNo == old(state.seqNo) && state.sound == old(state.sound)
      ensures r == Failure(ReservedCollision) <==> UsesReserved(entry)
      ensures r.Success? ==> Carries(r.value, entry, runId, old(state.seqNo) + 1)
      ensures r.Success? && Latest(seen).None? && Faithful(codec) && Tail(old(state.trail[state.generation])) == [] ==>
        GainsRow(codec, old(state.trail[state.generation]), disk.Content(), entry, runId, old(state.seqNo) + 1)
      ensures r.Success? ==> r.value == old(NextRow(entry)) && Recorded(r.value, seen)
      ensures r.Success? && old(state.fileState).Some? ==>
        RewriteSince(disk.View(), old(state.fileState).value) == Latest(seen)
      ensures Quiet(old(disk.View()), disk.View()) ==>
        var payload := Encode(codec, old(NextRow(entry)));
        var matched := !Collides(entry) && old(disk.PathState()) == old(state.fileState);
        && AsPlanned(old(disk.Content()), disk.Content(), matched, payload, landed, plan, r.Success?)
        && (r.Success? ==> seen == plan)
        && (matched && r.Failure? ==> disk.PathState() != state.fileState)
        && (!matched ==> disk.PathState() == old(disk.PathState()))
    {
      seen := Windows(None, None);
      CollidesIff(entry);
      if Collides(entry) {
        return Failure(ReservedCollision), seen;
      }
      var row := NextRow(entry);
      var ok;
      ok, seen := AppendRow(row, landed, plan);
      if !ok {
        return Failure(ChangedOutside), seen;
      }
      r := Success(row);
      if Latest(seen).None? && Faithful(codec) && Tail(old(state.trail[state.generation])) == [] {
        AppendGainsRow(codec, old(state.trail[state.generation]), row, entry, runId, old(state.seqNo) + 1);
      }
    }

    /** Writes a row and, when it is certified, records what is there now. */
    method AppendRow(row: Row, landed: nat, plan: Windows) returns (ok: bool, ghost seen: Windows)
      requires Valid() && state.initialized
      modifies disk, state
      ensures Valid() && Evolves(old(disk.View()), disk.View())
      ensures Continues(old(state.View()), state.View())
      ensures !ok ==> state.View() == old(state.View()) && state.seqNo == old(state.seqNo) && state.sound == old(state.sound)
      ensures ok ==> Recorded(row, seen)
      ensures ok && old(state.fileState).Some? ==>
        RewriteSince(disk.View(), old(state.fileState).value) == Latest(seen)
      ensures Quiet(old(disk.View()), disk.View()) ==>
        var matched := old(disk.PathState()) == old(state.fileState);
        && AsPlanned(old(disk.Content()), disk.Content(), matched, Encode(codec, row), landed, plan, ok)
        && (ok ==> seen == plan)
        && (matched && !ok ==> disk.PathState() != state.fileState)
        && (!matched ==> disk.PathState() == old(disk.PathState()))
    {
      var payload := Encode(codec, row);
      var after;
      after, seen := AppendPayload(payload, landed, plan);
      ok := after.Some?;
      if ok {
        Acknowledge(after.value, payload, seen);
      }
    }

    /** The file side of an append: nothing is recorded yet. */
    method AppendPayload(payload: Bytes, landed: nat, plan: Windows)
      returns (after: Option<FileState>, ghost seen: Windows)
      requires Valid() && state.initialized
      modifies disk
      ensures Valid() && Evolves(old(disk.View()), disk.View())
      ensures after.Some? ==>
        && disk.PathState() == after
        && disk.Content() == Left(state.trail[state.generation], seen.first, payload, seen.second)
        && |disk.Content()| == |state.trail[state.generation]| + |payload|
      ensures after.Some? && state.fileState.Some? ==>
        RewriteSince(disk.View(), state.fileState.value) == Latest(seen)
      ensures Quiet(old(disk.View()), disk.View()) ==>
        var matched := old(disk.PathState()) == state.fileState;
        && AsPlanned(old(disk.Content()), disk.Content(), matched, payload, landed, plan, after.Some?)
        && (after.Some? ==> seen == plan)
        && (matched && after.None? ==> disk.PathState() != state.fileState)
        && (!matched ==> disk.PathState() == old(disk.PathState()))
    {
      ghost var v0 := disk.View();
      var fd, before := OpenExpected();
      ghost var v1 := disk.View();
      StreamOkIsStable(state.View(), v0.versions, v1.versions);
      if before.None? {
        return None, Windows(None, None);
      }
      after, seen := WriteChecked(fd.value, before.value, payload, landed, plan);
      EvolvesCompose(v0, v1, disk.View());
      StreamOkIsStable(state.View(), v1.versions, disk.versions);
    }

    /** The write and the checks after it: the new file state when they pass. */
    method WriteChecked(fd: nat, before: FileState, payload: Bytes, landed: nat, plan: Windows)
      returns (after: Option<FileState>, ghost seen: Windows)
      requires disk.Valid() && disk.path == Some(fd) && disk.StateOf(fd) == before
      modifies disk
      ensures disk.Valid() && Evolves(old(disk.View()), disk.View())
      ensures after.Some? ==>
        && disk.PathState() == after
        && disk.Content() == Left(old(disk.Content()), seen.first, payload, seen.second)
        && |disk.Content()| == before.size + |payload|
        && RewriteSince(disk.View(), before) == Latest(seen)
      ensures Quiet(old(disk.View()), disk.View()) ==>
        && AsPlanned(old(disk.Content()), disk.Content(), true, payload, landed, plan, after.Some?)
        && seen == plan
        && disk.PathState().Some? && disk.PathState().value.stamp > old(disk.clock)
    {
      ghost var v0 := disk.View();
      ghost var first := WriteWindow(fd, payload, landed, plan.first);
      ghost var v1 := disk.View();
      var stat, pathAfter;
      ghost var second;
      stat, pathAfter, second := CloseWindow(fd, plan.second);
      EvolvesCompose(v0, v1, disk.View());
      seen := Windows(first, second);
      after := if landed >= |payload| && StableAppend(before, stat, pathAfter, |payload|) then Some(stat) else None;
    }

    /** The window before the write, and the write: it lands behind whatever the
        file holds by then. */
    method WriteWindow(fd: nat, payload: Bytes, landed: nat, planned: Option<Bytes>) returns (ghost first: Option<Bytes>)
      requires disk.Valid() && disk.path == Some(fd)
      modifies disk
      ensures disk.Valid() && Evolves(old(disk.View()), disk.View())
      ensures fd in disk.inodes && disk.inodes[fd].stamp == disk.clock > old(disk.clock)
      ensures disk.inodes[fd].data == Left(old(disk.inodes)[fd].data, first, Taken(payload, landed), None)
      ensures RewriteSince(disk.View(), old(disk.StateOf(fd))) == first
      ensures Quiet(old(disk.View()), disk.View()) ==> disk.path == Some(fd) && first == planned
    {
      if planned.Some? {
        disk.Rewrite(fd, planned.value);
      }
      ghost var onto := disk.Write(fd, payload, |Taken(payload, landed)|);
      assert payload[..|Taken(payload, landed)|] == Taken(payload, landed);
      first := if onto == old(disk.inodes)[fd] then None else Some(onto.data);
    }

    /** The window after the write, and the two looks at the file. */
    method CloseWindow(fd: nat, planned: Option<Bytes>)
      returns (stat: FileState, pathAfter: Option<FileState>, ghost second: Option<Bytes>)
      requires disk.Valid() && fd in disk.inodes && disk.inodes[fd].stamp == disk.clock
      modifies disk
      ensures disk.Valid() && Evolves(old(disk.View()), disk.View())
      ensures pathAfter == disk.PathState() && fd in disk.inodes && stat.ino == fd
      ensures stat == disk.StateOf(fd) || pathAfter != Some(stat)
      ensures disk.inodes[fd].data == (if second.Some? then second.value else old(disk.inodes)[fd].data)
      ensures Foreign(disk.View(), fd) == (if second.Some? then Some(disk.inodes[fd]) else Foreign(old(disk.View()), fd))
      ensures second.Some? ==> disk.inodes[fd].stamp > old(disk.clock)
      ensures Quiet(old(disk.View()), disk.View()) ==>
        disk.path == old(disk.path) && stat == disk.StateOf(fd) && second == planned
    {
      if planned.Some? {
        disk.Rewrite(fd, planned.value);
      }
      stat := disk.Fstat(fd);
      pathAfter := disk.StatPath();
      second := if disk.inodes[fd] == old(disk.inodes)[fd] then None else Some(disk.inodes[fd].data);
    }

    method Acknowledge(after: FileState, payload: Bytes, ghost seen: Windows)
      requires Valid() && state.initialized
      requires disk.PathState() == Some(after)
      requires disk.Content() == Left(state.trail[state.generation], seen.first, payload, seen.second)
      requires |disk.Content()| == |state.trail[state.generation]| + |payload|
      modifies state
      ensures Valid() && Continues(old(state.View()), state.View())
      ensures Certified(old(state.View()), state.View(), payload, seen)
      ensures state.trail[state.generation] == disk.Content()
      ensures state.fileState == Some(after) && state.seqNo == old(state.seqNo) + 1
      ensures state.sound == (old(state.sound) && Spared(old(state.trail[state.generation]), seen))
    {
      GrowthIff(state.trail[state.generation], seen, payload);
      state.sound := state.sound && Spared(state.trail[state.generation], seen);
      if state.sound {
        ChainGrows(state.trail, disk.Content());
      }
      state.seqNo := state.seqNo + 1;
      state.fileState := Some(after);
      state.generation := state.generation + 1;
      state.trail := state.trail + [disk.Content()];
    }
  }

  /** The first `n` bytes, or all of them. */
  function Taken(b: Bytes, n: nat): Bytes { if n < |b| then b[..n] else b }

  /** Some field has a name that the journal keeps to itself. */
  predicate Collides(entry: Entry) { entry.fields.Keys * RESERVED != {} }

  ghost predicate UsesReserved(entry: Entry) { exists k :: k in entry.fields && k in RESERVED }

  lemma CollidesIff(entry: Entry)
    ensures Collides(entry) <==> UsesReserved(entry)
  {
    if k :| k in entry.fields && k in RESERVED {
      assert k in entry.fields.Keys * RESERVED;
    }
  }

  /** What the caller of an append supplies. */
  datatype Entry = Entry(
    eventType: string,
    fields: map<string, string>,
    tsUtc: string,
    decisionId: Option<string>,
    orderId: Option<string>)

  /** The row says what its caller said, under whose run and with which number. */
  ghost predicate Carries(row: Row, entry: Entry, runId: string, seqNo: int) {
    && row.eventType == entry.eventType && row.fields == entry.fields
    && row.runId == runId && row.seqNo == seqNo && row.tsUtc == entry.tsUtc
    && row.decisionId == entry.decisionId && row.orderId == entry.orderId
  }

  /** What a replay finds: the rows there were, and behind them one for the entry. */
  ghost predicate GainsRow(c: Codec, before: Bytes, after: Bytes, entry: Entry, runId: string, seqNo: int) {
    match CompleteRows(c, before)
    case None => CompleteRows(c, after).None?
    case Some(rows) =>
      && CompleteRows(c, after).Some?
      && |CompleteRows(c, after).value| == |rows| + 1 && rows <= CompleteRows(c, after).value
      && Carries(CompleteRows(c, after).value[|rows|], entry, runId, seqNo)
  }

  lemma AppendGainsRow(c: Codec, before: Bytes, row: Row, entry: Entry, runId: string, seqNo: int)
    requires Faithful(c) && Tail(before) == [] && Carries(row, entry, runId, seqNo)
    ensures GainsRow(c, before, before + Encode(c, row), entry, runId, seqNo)
  {
    AppendedRow(c, before, row);
  }

  function RowOf(entry: Entry, runId: string, seqNo: int): Row {
    Row(entry.fields, entry.eventType, runId, seqNo, entry.tsUtc, entry.decisionId, entry.orderId)
  }

  /** The shared state after a rebase: the lineage stays as it is when the file is
      what the last writer left, and a new one begins otherwise. */
  function Rebased(s: StreamView, current: Option<FileState>, content: Bytes): StreamView {
    if s.initialized && s.fileState == current then s
    else StreamView(true, current, if s.initialized then s.lineage + 1 else 1, 0, [content])
  }

  /** Either way the recorded state is that of the newest content. */
  lemma RebasedOk(s: StreamView, v: DiskView, current: Option<FileState>, content: Bytes)
    requires StreamOk(s, v.versions) && Holds(v.versions, content, current)
    ensures var s' := Rebased(s, current, content);
            && StreamOk(s', v.versions) && Continues(s, s') && s'.initialized && s'.fileState == current
            && (s.initialized && Chained(s.trail) ==> Chained(s'.trail)) && (!s.initialized ==> Chained(s'.trail))
  {}

  /** The check an append makes after its write. */
  predicate StableAppend(before: FileState, after: FileState, pathAfter: Option<FileState>, written: nat) {
    && after.ino == before.ino
    && after.size == before.size + written
    && pathAfter == Some(after)
  }

  // ------------------------------------------------ an append's blind windows

  /** What outsiders last stored in the file between the check and the write, and
      between the write and the closing checks. */
  datatype Windows = Windows(first: Option<Bytes>, second: Option<Bytes>)

  const UNDISTURBED := Windows(None, None)

  /** What they leave: the write lands behind the first, the second replaces all. */
  function Left(checked: Bytes, first: Option<Bytes>, payload: Bytes, second: Option<Bytes>): Bytes {
    if second.Some? then second.value
    else (if first.Some? then first.value else checked) + payload
  }

  /** When nobody acts but as planned: a write that is let through leaves what the
      plan and the write make of the content, and is acknowledged exactly if all of
      it landed and the size is the expected one. */
  ghost predicate AsPlanned(content: Bytes, content': Bytes, matched: bool, payload: Bytes, landed: nat, plan: Windows,
                            acknowledged: bool) {
    var left := Left(content, plan.first, Taken(payload, landed), plan.second);
    && content' == (if matched then left else content)
    && (acknowledged <==> matched && landed >= |payload| && |left| == |content| + |payload|)
  }

  function Latest(w: Windows): Option<Bytes> {
    if w.second.Some? then w.second else w.first
  }

  /** The last outside store, if there was one, kept the checked bytes in place. */
  predicate Spared(checked: Bytes, w: Windows) {
    Latest(w).Some? ==> checked <= Latest(w).value
  }

  /** The closing checks compare sizes. When they pass, what the append certifies
      as a growth is one exactly if the last outside store, in whichever window,
      spared the checked bytes. */
  lemma GrowthIff(checked: Bytes, w: Windows, payload: Bytes)
    requires |Left(checked, w.first, payload, w.second)| == |checked| + |payload|
    ensures checked <= Left(checked, w.first, payload, w.second) <==> Spared(checked, w)
  {
    var left := Left(checked, w.first, payload, w.second);
    if w.second.None? && w.first.Some? && checked <= left {
      assert checked == left[..|checked|] == w.first.value;
    }
  }

  /** The shared state after an acknowledged append: one generation later, with
      the content the append left; a growth exactly if the bytes were spared. */
  ghost predicate Certified(s: StreamView, s': StreamView, payload: Bytes, seen: Windows) {
    && s.initialized && s'.initialized && |s.trail| == s.generation + 1
    && s'.lineage == s.lineage && s'.generation == s.generation + 1
    && var checked := s.trail[s.generation];
    && var content := Left(checked, seen.first, payload, seen.second);
    && s'.trail == s.trail + [content] && |content| == |checked| + |payload|
    && (checked <= content <==> Spared(checked, seen))
  }

  // ------------------------------------------------------------- all together

  /** The client of the delta reads: it replaces its rows when told and extends
      them otherwise. */
  class Follower {
    const reader: IncrementalJournalReader
    var rows: seq<Row>
    ghost var lastSeen: Bytes     // the content at the last successful read

    constructor (reader: IncrementalJournalReader)
      requires reader.served == [] && reader.pieced == [] && reader.since == 0
      ensures this.reader == reader && Agrees()
    {
      this.reader := reader;
      rows, lastSeen := [], [];
      assert CompleteRows(reader.codec, []) == Some([]);
    }

    /** The accumulation is what was served: the replay of the bytes as they were read,
        which from the last line start on, and unless the reader was misled from the
        first, are the content at the last successful read. */
    ghost predicate Agrees() reads this, reader {
      && rows == reader.served
      && CompleteRows(reader.codec, reader.pieced) == Some(rows)
      && Patched(reader.pieced, reader.since, lastSeen)
      && (!reader.misled ==> reader.pieced == lastSeen)
    }

    /** So it is the replay of that content exactly if the part before, up to a line
        start, has the rows it had when it was read. */
    ghost predicate ReplaysIff() reads this, reader {
      && reader.since <= |lastSeen| == |reader.pieced|
      && var e := NextStart(lastSeen, reader.since);
         CompleteRows(reader.codec, lastSeen) == Some(rows)
         <==> CompleteRows(reader.codec, lastSeen[..e]) == CompleteRows(reader.codec, reader.pieced[..e])
    }

    lemma AgreesMeansReplaysIff()
      requires Agrees()
      ensures ReplaysIff()
    {
      PatchedRowsIff(reader.codec, reader.pieced, reader.since, lastSeen);
    }

    method Poll() returns (ok: bool)
      requires reader.Valid() && Agrees()
      modifies this, reader, reader.disk
      ensures reader.Valid() && Agrees()
      ensures Steps(old(reader.disk.View()), reader.disk.View())
      ensures reader.Delivered(old(reader.View()), ok)
      ensures if ok then lastSeen == reader.disk.Content() else rows == old(rows) && lastSeen == old(lastSeen)
      ensures Quiet(old(reader.disk.View()), reader.disk.View()) ==>
        (ok <==> reader.ReadingNow(old(reader.View())).Success?)
    {
      var r := reader.ReadNew();
      if r.Failure? {
        return false;
      }
      Absorb(r.value.0, r.value.1);
      ok := true;
    }

    method Absorb(replaced: bool, delta: seq<Row>)
      requires reader.disk.Valid()
      modifies this`rows, this`lastSeen
      ensures rows == (if replaced then delta else old(rows) + delta)
      ensures lastSeen == reader.disk.Content()
    {
      rows := if replaced then delta else rows + delta;
      lastSeen := reader.disk.Content();
    }

    method PollUnmisled() returns (ok: bool)
      requires reader.Valid() && Agrees()
      modifies this, reader, reader.disk
      ensures reader.Valid() && Agrees()
      ensures Steps(old(reader.disk.View()), reader.disk.View())
      ensures old(!reader.misled && (reader.state.initialized ==> Chained(reader.state.trail))) ==> !reader.misled
    {
      ghost var was, h := reader.View(), reader.disk.versions;
      ok := Poll();
      if !was.misled && (reader.state.initialized ==> Chained(reader.state.trail)) {
        PollNeverMisleads(was, h, ok);
      }
    }

    /** While every append is a growth, a poll misleads nobody, and it fails on a
        quiet disk only when a complete line is corrupt. */
    lemma PollNeverMisleads(was: ReaderView, h: Versions, ok: bool)
      requires reader.disk.Valid() && Extends(h, reader.disk.versions)
      requires StreamOk(reader.state.View(), h) && ReaderOk(reader.codec, was, reader.state.View(), h)
      requires reader.Delivered(was, ok)
      requires !was.misled && (reader.state.initialized ==> Chained(reader.state.trail))
      ensures !reader.misled
      ensures reader.ReadingNow(was).Success? <==> CompleteRows(reader.codec, reader.disk.Content()).Some?
    {
      var s, content, current := reader.state.View(), reader.disk.Content(), reader.disk.PathState();
      ReaderOkIsStable(reader.codec, was, s, s, h, reader.disk.versions);
      StreamOkIsStable(s, h, reader.disk.versions);
      if s.initialized {
        NeverMisled(reader.codec, was, s, reader.disk.versions, content, current);
      }
      ReadingIsReplay(reader.codec, was, s, reader.disk.versions, content, current);
    }
  }

  /** Rows numbered from 1 without a gap; and when the file is the one the writers
      recorded, it has no pending tail and their counter is the number of rows. */
  ghost predicate Orderly(c: Codec, content: Bytes, asRecorded: bool, seqNo: int) {
    match CompleteRows(c, content)
    case None => false
    case Some(rows) => Numbered(rows) && (asRecorded ==> Tail(content) == [] && seqNo == |rows|)
  }

  lemma RepairKeepsOrder(c: Codec, content: Bytes, recorded: bool, seqNo: int)
    requires Orderly(c, content, recorded, seqNo)
    ensures CompleteRows(c, Complete(content)) == CompleteRows(c, content)
    ensures ReplayRows(c, Complete(content)).Some?
    ensures Orderly(c, Complete(content), true, LastSeq(ReplayRows(c, Complete(content)).value))
  {
    SplitShape(content);
    ReplayOfComplete(c, content);
  }

  /** An append that lands keeps the numbering; one that is cut short leaves only a
      pending tail. */
  lemma AppendKeepsOrder(c: Codec, content: Bytes, row: Row, landed: nat)
    requires Faithful(c) && Orderly(c, content, true, row.seqNo - 1)
    ensures Orderly(c, content + Taken(Encode(c, row), landed), landed >= |Encode(c, row)|, row.seqNo)
  {
    var payload := Encode(c, row);
    if landed >= |payload| {
      AppendedRow(c, content, row);
    } else {
      CrashRepair(c, content, row, landed);
      SplitShape(content + payload[..landed]);
    }
  }

  ghost predicate AllSpared(appends: seq<(Bytes, Windows)>) {
    forall a :: a in appends ==> Spared(a.0, a.1)
  }

  lemma AllSparedSnoc(appends: seq<(Bytes, Windows)>, a: (Bytes, Windows))
    ensures AllSpared(appends + [a]) <==> AllSpared(appends) && Spared(a.0, a.1)
  {
    assert forall b :: b in appends + [a] <==> b in appends || b == a;
  }

  datatype Op =
    | OpenWriter(runId: string, pad: char)                // a writer is constructed
    | AppendBy(writer: nat, entry: Entry, landed: nat, plan: Windows)    // some writer appends
    | PollBy(follower: nat)                               // some client reads
    | Meddle                                              // anything from outside

  /** One process over one stream, with any number of writers and readers. */
  class World {
    const disk: Disk
    const state: StreamState
    const codec: Codec
    const followers: seq<Follower>
    var writers: seq<JournalWriter>
    ghost var meddled: bool       // some append had company, as planned
    ghost var acknowledged: seq<(Bytes, Windows)>    // what each append had checked, and saw happen

    /** A stream that earlier runs left in order, and a process that has not
        written to it yet. */
    constructor (disk: Disk, state: StreamState, codec: Codec, followers: seq<Follower>)
      requires disk.Valid() && !state.initialized && state.sound && Faithful(codec)
      requires Orderly(codec, disk.Content(), false, state.seqNo)
      requires forall k :: 0 <= k < |followers| ==>
        var f := followers[k];
        && f.reader.disk == disk && f.reader.state == state && f.reader.codec == codec
        && f.Agrees() && !f.reader.misled && forall s, h :: ReaderOk(codec, f.reader.View(), s, h)
      requires forall j, k :: 0 <= j < k < |followers| ==>
        followers[j] != followers[k] && followers[j].reader != followers[k].reader
      ensures Valid() && this.disk == disk && this.followers == followers
    {
      this.disk, this.state, this.codec, this.followers := disk, state, codec, followers;
      writers, meddled, acknowledged := [], false, [];
    }

    ghost predicate Wired() reads this {
      && (forall w :: w in writers ==> w.disk == disk && w.state == state && w.codec == codec)
      && (forall k :: 0 <= k < |followers| ==>
            var r := followers[k].reader;
            r.disk == disk && r.state == state && r.codec == codec)
      && (forall j, k :: 0 <= j < k < |followers| ==>
            followers[j] != followers[k] && followers[j].reader != followers[k].reader)
    }

    ghost predicate FollowerOk(k: nat)
      requires k < |followers|
      reads this, disk, state, followers[k], followers[k].reader
    {
      followers[k].Agrees() && ReaderOk(codec, followers[k].reader.View(), state.View(), disk.versions)
    }

    ghost predicate InOrder()
      requires disk.Valid()
      reads this, disk, state
    {
      Orderly(codec, disk.Content(), state.initialized && disk.PathState() == state.fileState, state.seqNo)
    }

    /** The invariant of every run. Each client's accumulation is the replay of the
        complete lines as they were read, and unless its reader was misled of those the
        file held at its last successful read (Follower.Agrees); as long as every append that was acknowledged had its
        checked bytes spared, and exactly as long, every one of them was a growth,
        and then nobody is misled; and as long as nobody else touches the file,
        its rows are numbered 1..n. */
    ghost predicate Valid()
      reads this, disk, state, followers, set k | 0 <= k < |followers| :: followers[k].reader
    {
      && Wired()
      && Faithful(codec)
      && disk.Valid()
      && StreamOk(state.View(), disk.versions)
      && (writers != [] ==> state.initialized)
      && (forall k :: 0 <= k < |followers| ==> FollowerOk(k))
      && (state.sound <==> AllSpared(acknowledged))
      && (state.sound ==> Unmisled())
      && (disk.tampering == 0 && !meddled ==> state.sound && InOrder())
    }

    ghost predicate Unmisled()
      reads this, state, followers, set k | 0 <= k < |followers| :: followers[k].reader
    {
      && (state.initialized ==> Chained(state.trail))
      && forall k :: 0 <= k < |followers| ==> !followers[k].reader.misled
    }

    /** Whatever writers and outsiders do, every follower stays sound. */
    twostate lemma FollowersUnspoiled()
      requires old(Valid()) && forall k :: 0 <= k < |followers| ==>
        unchanged(followers[k]) && unchanged(followers[k].reader)
      requires Continues(old(state.View()), state.View()) && Extends(old(disk.versions), disk.versions)
      ensures forall k :: 0 <= k < |followers| ==> FollowerOk(k)
    {
      forall k | 0 <= k < |followers| ensures FollowerOk(k) {
        assert old(FollowerOk(k));
        ReaderOkIsStable(codec, followers[k].reader.View(), old(state.View()), state.View(),
                         old(disk.versions), disk.versions);
      }
    }

    method DoOpen(runId: string, pad: char)
      requires Valid()
      modifies this`writers, disk, state
      ensures Valid()
    {
      var w := OpenInOrder(runId, pad);
      if w.Some? {
        writers := writers + [w.value];
      }
      FollowersUnspoiled();
    }

    method OpenInOrder(runId: string, pad: char) returns (w: Option<JournalWriter>)
      requires disk.Valid() && StreamOk(state.View(), disk.versions)
      requires state.sound && state.initialized ==> Chained(state.trail)
      requires disk.tampering == 0 && !meddled ==> InOrder()
      modifies disk, state
      ensures disk.Valid() && Evolves(old(disk.View()), disk.View())
      ensures StreamOk(state.View(), disk.versions) && Continues(old(state.View()), state.View())
      ensures state.sound == old(state.sound) && (state.sound && state.initialized ==> Chained(state.trail))
      ensures disk.tampering == 0 && !meddled ==> InOrder()
      ensures w.Some? ==> w.value.disk == disk && w.value.state == state && w.value.codec == codec && state.initialized
    {
      var writer := new JournalWriter(disk, state, codec, runId);
      ghost var content := disk.Content();
      var r := writer.Initialize(pad);
      if disk.tampering == 0 && !meddled {
        RepairKeepsOrder(codec, content, old(state.initialized && disk.PathState() == state.fileState), old(state.seqNo));
      }
      w := if r.Pass? then Some(writer) else None;
    }

    /** With nobody else about, an acknowledged append is one row more for every
        replay: the entry's own, under its writer's run. */
    method DoAppend(w: JournalWriter, entry: Entry, landed: nat, plan: Windows) returns (r: Result<Row, JournalError>)
      requires Valid() && w in writers
      modifies this`meddled, this`acknowledged, disk, state
      ensures Valid()
      ensures disk.tampering == 0 && !meddled && r.Success? ==>
        GainsRow(codec, old(disk.Content()), disk.Content(), entry, w.runId, old(state.seqNo) + 1)
    {
      ghost var checked := state.trail[state.generation];
      ghost var seen;
      r, seen := AppendInOrder(w, entry, landed, plan);
      if r.Success? {
        AllSparedSnoc(acknowledged, (checked, seen));
        acknowledged := acknowledged + [(checked, seen)];
      }
      FollowersUnspoiled();
    }

    method AppendInOrder(w: JournalWriter, entry: Entry, landed: nat, plan: Windows)
      returns (r: Result<Row, JournalError>, ghost seen: Windows)
      requires Faithful(codec) && w.disk == disk && w.state == state && w.codec == codec
      requires w.Valid() && state.initialized
      requires disk.tampering == 0 && !meddled ==> state.sound && InOrder()
      modifies this`meddled, disk, state
      ensures w.Valid() && Evolves(old(disk.View()), disk.View()) && Continues(old(state.View()), state.View())
      ensures disk.tampering == 0 && !meddled ==> state.sound && InOrder()
      ensures state.initialized
      ensures state.sound == (old(state.sound) && (r.Success? ==> Spared(old(state.trail[state.generation]), seen)))
      ensures disk.tampering == 0 && !meddled && r.Success? ==>
        GainsRow(codec, old(disk.Content()), disk.Content(), entry, w.runId, old(state.seqNo) + 1)
    {
      ghost var content, row := disk.Content(), w.NextRow(entry);
      r, seen := w.Append(entry, landed, plan);
      meddled := meddled || plan != UNDISTURBED;
      if disk.tampering == 0 && !meddled && !Collides(entry) && old(disk.PathState() == state.fileState) {
        AppendKeepsOrder(codec, content, row, landed);
        if r.Success? {
          AppendGainsRow(codec, content, row, entry, w.runId, old(state.seqNo) + 1);
        }
      }
    }

    method DoMeddle()
      requires Valid()
      modifies disk
      ensures Valid()
    {
      disk.Interfere();
      FollowersUnspoiled();
    }

    /** Nor does the read of one follower spoil another. */
    twostate lemma OthersUnspoiled(k: nat)
      requires old(Valid()) && state.View() == old(state.View()) && Extends(old(disk.versions), disk.versions)
      requires forall j :: 0 <= j < |followers| && j != k ==>
        unchanged(followers[j]) && unchanged(followers[j].reader)
      ensures forall j :: 0 <= j < |followers| && j != k ==> FollowerOk(j)
    {
      forall j | 0 <= j < |followers| && j != k ensures FollowerOk(j) {
        assert old(FollowerOk(j));
        ReaderOkIsStable(codec, followers[j].reader.View(), state.View(), state.View(),
                         old(disk.versions), disk.versions);
      }
    }

    method DoPoll(k: nat)
      requires Valid() && k < |followers|
      modifies followers[k], followers[k].reader, disk
      ensures Valid()
    {
      assert FollowerOk(k);
      var ok := followers[k].PollUnmisled();
      OthersUnspoiled(k);
    }

    /** Any schedule at all keeps the invariant. */
    method Run(schedule: seq<Op>)
      requires Valid()
      modifies this, disk, state, followers, set k | 0 <= k < |followers| :: followers[k].reader
      ensures Valid()
      ensures forall k :: 0 <= k < |followers| ==> followers[k].ReplaysIff()
    {
      var i := 0;
      while i < |schedule|
        invariant Valid()
      {
        match schedule[i] {
          case OpenWriter(runId, pad) => DoOpen(runId, pad);
          case AppendBy(w, entry, landed, plan) =>
            if w < |writers| {
              var written := DoAppend(writers[w], entry, landed, plan);
            }
          case PollBy(k) =>
            if k < |followers| {
              DoPoll(k);
            }
          case Meddle => DoMeddle();
        }
        i := i + 1;
      }
      forall k | 0 <= k < |followers| ensures followers[k].ReplaysIff() {
        assert FollowerOk(k);
        followers[k].AgreesMeansReplaysIff();
      }
    }
  }

  // ---------------------------------------------------- a follower that is misled

  lemma OneRow(c: Codec, first: Row)
    requires Faithful(c)
    ensures CompleteRows(c, Encode(c, first)) == Some([first]) && Tail(Encode(c, first)) == []
  {
    assert CompleteRows(c, []) == Some([]) && Tail([]) == [];
    AppendedRow(c, [], first);
    assert [] + Encode(c, first) == Encode(c, first);
    NothingJoin(Some([first]));
  }

  /** Two rows that a stream holds one after the other. */
  lemma TwoRows(c: Codec, first: Row, second: Row)
    requires Faithful(c)
    ensures CompleteRows(c, Encode(c, first)) == Some([first]) && Tail(Encode(c, first)) == []
    ensures CompleteRows(c, Encode(c, first) + Encode(c, second)) == Some([first, second])
  {
    OneRow(c, first);
    AppendedRow(c, Encode(c, first), second);
    assert [first] + [second] == [first, second];
  }

  /** A writer and a client of one stream. */
  datatype Pair = Pair(writer: JournalWriter, follower: Follower) {
    ghost predicate Valid()
      reads writer.disk, writer.state, follower, follower.reader
    {
      && follower.reader.disk == writer.disk && follower.reader.state == writer.state
      && follower.reader.codec == writer.codec
      && writer.Valid() && follower.reader.Valid() && follower.Agrees()
    }

    /** Unless somebody else was about, the stream is recorded as it stands: it
        holds `content`, and `rows` is what was read of it so far. */
    ghost predicate At(seqNo: int, content: Bytes, rows: seq<Row>)
      requires writer.disk.Valid()
      reads writer.disk, writer.state, follower
    {
      writer.disk.tampering == 0 ==>
        && writer.disk.Content() == content
        && writer.state.initialized && writer.disk.PathState() == writer.state.fileState
        && writer.state.seqNo == seqNo
        && follower.rows == rows
    }
  }

  /** A writer and a follower on an empty disk that they have for themselves. */
  method Start(c: Codec, runId: string, pad: char) returns (p: Pair, ok: bool)
    ensures p.writer.disk.alone
    ensures p.Valid() && p.At(0, [], []) && (ok ==> p.writer.state.initialized)
    ensures p.writer.disk.tampering == 0 ==> ok
    ensures p.writer.codec == c && p.writer.runId == runId && p.follower.reader.version.None?
    ensures fresh(p.writer.disk) && fresh(p.writer.state) && fresh(p.follower) && fresh(p.follower.reader)
  {
    var disk := new Disk(true);
    var state := new StreamState();
    var reader := new IncrementalJournalReader(disk, state, c);
    var follower := new Follower(reader);
    var writer := new JournalWriter(disk, state, c, runId);
    p := Pair(writer, follower);
    assert CompleteRows(c, []) == Some([]);
    var started := writer.Initialize(pad);
    ok := started.Pass?;
  }

  /** An append while outsiders store what `plan` says; the size is the expected one. */
  method AppendBetween(p: Pair, entry: Entry, plan: Windows, ghost content: Bytes, ghost rows: seq<Row>, ghost payload: Bytes)
    requires p.Valid() && p.writer.state.initialized && !Collides(entry)
    requires p.At(p.writer.state.seqNo, content, rows) && payload == Encode(p.writer.codec, p.writer.NextRow(entry))
    requires |Left(content, plan.first, payload, plan.second)| == |content| + |payload|
    modifies p.writer.disk, p.writer.state
    ensures p.writer.state.initialized
    ensures p.Valid() && p.At(old(p.writer.state.seqNo) + 1, Left(content, plan.first, payload, plan.second), rows)
    ensures p.writer.disk.tampering == 0 ==>
      && old(p.writer.disk.tampering) == 0
      && p.writer.state.lineage == old(p.writer.state.lineage)
      && p.writer.state.generation == old(p.writer.state.generation) + 1
      && (p.writer.state.sound ==> Spared(content, plan))
  {
    var r;
    ghost var seen;
    r, seen := p.writer.Append(entry, |Encode(p.writer.codec, p.writer.NextRow(entry))|, plan);
  }

  /** The first read of a follower parses everything and is authorized from there. */
  method FirstRead(p: Pair, ghost content: Bytes, ghost first: Row)
    requires p.Valid() && p.At(1, content, [])
    requires p.follower.reader.version.None?
    requires CompleteRows(p.writer.codec, content) == Some([first]) && CompleteLength(content) == |content|
    modifies p.follower, p.follower.reader, p.writer.disk
    ensures p.Valid() && p.At(1, content, [first]) && Following(p, content)
    ensures Evolves(old(p.writer.disk.View()), p.writer.disk.View())
  {
    var ok := p.follower.Poll();
    if p.writer.disk.tampering == 0 {
      assert [] + [first] == [first];
    }
  }

  /** The reader may resume behind `content`. */
  ghost predicate Following(p: Pair, content: Bytes)
    reads p.writer.disk, p.writer.state, p.follower.reader
  {
    var r := p.follower.reader;
    p.writer.disk.tampering == 0 ==>
      && r.version == p.writer.state.fileState && r.version.Some?
      && r.observedSize == Some(|content|) && r.offset == |content| && r.parsed == content
      && r.rows == r.served && !r.misled
      && r.writerLineage == Some(p.writer.state.lineage)
      && r.writerGeneration == Some(p.writer.state.generation)
  }

  /** What a read that resumes makes of one more row. */
  lemma OneMoreRow(c: Codec, r: ReaderView, s: StreamView, content: Bytes, fs: FileState, next: Row)
    requires Authorized(r, s, fs) && !Unchanged(r, fs) && r.offset <= |content|
    requires CompleteRows(c, content[r.offset..]) == Some([next])
    ensures Reading(c, r, s, content, Some(fs)).Success?
    ensures Reading(c, r, s, content, Some(fs)).value.rows == r.rows + [next]
    ensures !(r.parsed <= content) ==> Reading(c, r, s, content, Some(fs)).value.misled
  {}

  /** A later read resumes behind `parsed`, whatever is there now. */
  method NextRead(p: Pair, ghost parsed: Bytes, ghost content: Bytes, ghost rows: seq<Row>, ghost next: Row)
    requires p.Valid() && p.At(2, content, rows)
    requires Resumable(p, parsed) && |parsed| < |content|
    requires CompleteRows(p.writer.codec, content[|parsed|..]) == Some([next])
    modifies p.follower, p.follower.reader, p.writer.disk
    ensures p.Valid() && p.At(2, content, rows + [next])
    ensures Evolves(old(p.writer.disk.View()), p.writer.disk.View())
    ensures p.writer.disk.tampering == 0 ==> p.follower.lastSeen == content
    ensures p.writer.disk.tampering == 0 && !(parsed <= content) ==> p.follower.reader.misled
  {
    ghost var was := p.follower.reader.View();
    var ok := p.follower.Poll();
    if p.writer.disk.tampering == 0 {
      OneMoreRow(p.writer.codec, was, p.writer.state.View(), content, p.writer.state.fileState.value, next);
    }
  }

  /** The stream has moved on within its lineage since the reader parsed `parsed`. */
  ghost predicate Resumable(p: Pair, parsed: Bytes)
    reads p.writer.disk, p.writer.state, p.follower.reader
  {
    var r, s := p.follower.reader, p.writer.state;
    p.writer.disk.tampering == 0 ==>
      && r.version.Some?
      && r.observedSize == Some(|parsed|) && r.offset == |parsed| && r.parsed == parsed && r.rows == r.served
      && r.writerLineage == Some(s.lineage)
      && r.writerGeneration.Some? && r.writerGeneration.value < s.generation
  }

  /** Another row of the same size is not the checked one. */
  lemma ForgedIsNotSpared(c: Codec, a: Row, b: Row)
    requires Faithful(c) && |Encode(c, a)| == |Encode(c, b)|
    ensures Spared(Encode(c, a), Windows(Some(Encode(c, b)), None)) ==> a == b
  {
    assert Encode(c, a)[..|LineOf(c, a)|] == LineOf(c, a);
    assert Encode(c, b)[..|LineOf(c, b)|] == LineOf(c, b);
    if Spared(Encode(c, a), Windows(Some(Encode(c, b)), None)) {
      assert Encode(c, a) == Encode(c, b);
      assert VerifyLine(c, LineOf(c, a)) == Some(a) && VerifyLine(c, LineOf(c, b)) == Some(b);
    }
  }

  /** One row is written. */
  method FirstAppend(c: Codec, runId: string, pad: char, one: Entry) returns (p: Pair, ok: bool)
    requires Faithful(c) && !Collides(one)
    ensures p.writer.disk.alone
    ensures p.writer.codec == c && p.writer.runId == runId && p.follower.reader.version.None?
    ensures fresh(p.writer.disk) && fresh(p.writer.state) && fresh(p.follower) && fresh(p.follower.reader)
    ensures p.Valid() && p.At(1, Encode(c, RowOf(one, runId, 1)), [])
    ensures p.writer.disk.tampering == 0 ==> ok
    ensures ok ==> p.writer.state.initialized && p.writer.state.seqNo == 1
  {
    p, ok := Start(c, runId, pad);
    ok := ok && p.writer.state.seqNo == 0;
    if ok {
      ghost var payload := Encode(c, RowOf(one, runId, 1));
      assert [] + payload == payload;
      AppendBetween(p, one, UNDISTURBED, [], [], payload);
      ok := p.writer.state.seqNo == 1;
    }
  }

  /** Another append, while outsiders store `instead` in the file, and another read. */
  method SecondRound(p: Pair, two: Entry, instead: Bytes, ghost first: Row, ghost content: Bytes, ghost payload: Bytes)
    requires p.Valid() && p.writer.state.initialized && p.writer.state.seqNo == 1 && !Collides(two)
    requires p.At(1, content, [first]) && Following(p, content)
    requires payload == Encode(p.writer.codec, p.writer.NextRow(two)) && |instead| == |content|
    requires CompleteRows(p.writer.codec, payload) == Some([p.writer.NextRow(two)])
    modifies p.writer.disk, p.writer.state, p.follower, p.follower.reader
    ensures p.writer.disk.Valid() && p.At(2, instead + payload, [first, old(p.writer.NextRow(two))])
    ensures p.writer.disk.tampering == 0 ==> p.follower.lastSeen == instead + payload
    ensures p.writer.disk.tampering == 0 && p.writer.state.sound ==> Spared(content, Windows(Some(instead), None))
  {
    ghost var next := p.writer.NextRow(two);
    AppendBetween(p, two, Windows(Some(instead), None), content, [first], payload);
    assert (instead + payload)[|content|..] == payload;
    NextRead(p, content, instead + payload, [first], next);
    assert [first] + [next] == [first, next];
  }

  /** A history of the steps that World.Run takes: while the second append runs,
      outsiders store another row of the same size over the first, and do nothing
      else. The append is acknowledged, and the next read of the follower extends
      a row that the file no longer holds. */
  method MisledFollower(c: Codec, runId: string, pad: char, one: Entry, two: Entry, forged: Row) returns (p: Pair)
    requires Faithful(c) && !Collides(one) && !Collides(two)
    requires |Encode(c, forged)| == |Encode(c, RowOf(one, runId, 1))|
    ensures p.writer.codec == c && p.writer.disk.Valid() && p.writer.disk.tampering == 0
    ensures p.follower.rows == [RowOf(one, runId, 1), RowOf(two, runId, 2)]
    ensures p.follower.lastSeen == p.writer.disk.Content()
    ensures CompleteRows(c, p.writer.disk.Content()) == Some([forged, RowOf(two, runId, 2)])
    ensures forged != RowOf(one, runId, 1) ==> !p.writer.state.sound
  {
    ghost var first, second := RowOf(one, runId, 1), RowOf(two, runId, 2);
    ghost var content := Encode(c, first);
    TwoRows(c, first, second);
    TwoRows(c, second, second);
    TwoRows(c, forged, second);
    ForgedIsNotSpared(c, first, forged);
    var ok;
    p, ok := FirstAppend(c, runId, pad, one);
    FirstRead(p, content, first);
    SecondRound(p, two, Encode(c, forged), first, content, Encode(c, second));
  }
}
