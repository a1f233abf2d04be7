/** Size-based rotation of the audit log (app/services/audit_log.py). Slot 0 of the directory is the
    live file, slot i the backup numbered i; `keep` and `rotateAt` are the two settings. Any file
    operation may fail; the failure is swallowed. */
module AuditLog {
  import opened Options

  type Dir = map<nat, string>

  /** One round of the loop. */
  function StepDown(m: Dir, keep: nat, i: nat): Dir {
    if i == keep then m - {i} else if i in m then (m - {i})[i + 1 := m[i]] else m
  }

  /** The directory once the loop has gone through the slots from `keep` down to above `i`. */
  function Moved(d: Dir, keep: nat, i: nat): Dir
    decreases keep - i
  {
    if i >= keep then d else StepDown(Moved(d, keep, i + 1), keep, i + 1)
  }

  /** A rotation: the oldest slot goes, every other backup and the live file move up by one. */
  function Shifted(d: Dir, keep: nat): Dir
    requires 0 in d
  {
    (Moved(d, keep, 0) - {0})[1 := d[0]]
  }

  predicate Due(d: Dir, rotateAt: nat) {
    0 in d && |d[0]| >= rotateAt
  }

  /** What fails in one emit: `cut` is the slot whose operation ends the rotation (0 for the live file's
      rename), and the append may fail. */
  datatype Fault = Fault(cut: Option<nat>, appended: bool)

  const NO_FAULT := Fault(None, true)

  /** A rotation that fails at a slot has moved the slots above it. */
  function Rotated(d: Dir, keep: nat, rotateAt: nat, cut: Option<nat>): Dir {
    if !Due(d, rotateAt) then d
    else if cut.None? then Shifted(d, keep)
    else Moved(d, keep, cut.value)
  }

  function Content(d: Dir, i: nat): string {
    if i in d then d[i] else ""
  }

  function Emitted(d: Dir, line: string, keep: nat, rotateAt: nat, f: Fault): Dir {
    var r := Rotated(d, keep, rotateAt, f.cut);
    if f.appended then r[0 := Content(r, 0) + line] else r
  }

  class AuditDir {
    const keep: nat
    const rotateAt: nat
    var files: Dir
    /** How many renames hit an occupied slot. */
    ghost var overwrites: nat

    constructor (keep: nat, rotateAt: nat, files: Dir)
      ensures this.keep == keep && this.rotateAt == rotateAt && this.files == files && overwrites == 0
    {
      this.keep, this.rotateAt, this.files, overwrites := keep, rotateAt, files, 0;
    }

    method Unlink(i: nat)
      modifies this
      ensures files == old(files) - {i} && overwrites == old(overwrites)
    {
      files := files - {i};
    }

    method Rename(i: nat, j: nat)
      requires i in files && i != j
      modifies this
      ensures files == (old(files) - {i})[j := old(files)[i]]
      ensures overwrites == old(overwrites) + if j in old(files) then 1 else 0
    {
      overwrites := overwrites + if j in files then 1 else 0;
      files := (files - {i})[j := files[i]];
    }

    /** The descending loop over the backups, down to above slot `stop`; no rename in it hits an occupied
        slot, whatever gaps the numbering has. */
    method MoveBackups(stop: nat)
      modifies this
      ensures files == Moved(old(files), keep, stop) && overwrites == old(overwrites)
    {
      ghost var d := files;
      var i := keep;
      while i > stop
        invariant (if keep < stop then i == keep else stop <= i <= keep)
        invariant files == Moved(d, keep, i) && overwrites == old(overwrites)
      {
        if i < keep { MovedSlot(d, keep, i, i + 1); }
        MoveOne(i);
        i := i - 1;
      }
    }

    /** The loop's body for one slot. */
    method MoveOne(i: nat)
      requires 0 < i <= keep && (i < keep ==> i + 1 !in files)
      modifies this
      ensures files == StepDown(old(files), keep, i) && overwrites == old(overwrites)
    {
      if i == keep && i in files {
        Unlink(i);
        return;
      }
      if i in files {
        Rename(i, i + 1);
      }
    }

    method RotateIfNeeded(cut: Option<nat>)
      modifies this
      ensures files == Rotated(old(files), keep, rotateAt, cut)
      ensures overwrites == old(overwrites)
        + if Due(old(files), rotateAt) && cut.None? && keep == 0 && 1 in old(files) then 1 else 0
    {
      if 0 !in files {
        return;
      }
      if |files[0]| < rotateAt {
        return;
      }
      if cut.Some? {
        MoveBackups(cut.value);
        return;
      }
      MoveBackups(0);
      MovedSlot(old(files), keep, 0, 0);
      MovedSlot(old(files), keep, 0, 1);
      Rename(0, 1);
    }

    method Emit(line: string, f: Fault)
      modifies this
      ensures files == Emitted(old(files), line, keep, rotateAt, f)
      ensures overwrites == old(overwrites)
        + if Due(old(files), rotateAt) && f.cut.None? && keep == 0 && 1 in old(files) then 1 else 0
    {
      RotateIfNeeded(f.cut);
      if f.appended {
        files := files[0 := (if 0 in files then files[0] else "") + line];
      }
    }
  }

  /** Where slot `j` comes from once the slots above `i` have moved up by one. */
  function From(keep: nat, i: nat, j: nat): nat {
    if i + 1 < j <= keep then j - 1 else j
  }

  /** In the middle of the loop slot `i + 1` is vacant and the oldest slot is gone. */
  lemma {:induction false} MovedSlot(d: Dir, keep: nat, i: nat, j: nat)
    requires i <= keep
    ensures j in Moved(d, keep, i) <==> !(j == i + 1 <= keep) && From(keep, i, j) in d
    ensures j in Moved(d, keep, i) ==> Moved(d, keep, i)[j] == d[From(keep, i, j)]
    decreases keep - i
  {
    if i < keep {
      MovedSlot(d, keep, i + 1, j);
      MovedSlot(d, keep, i + 1, i + 1);
    }
  }
}

/** What is kept and what is lost over every run of emits. */
module AuditLaws {
  import opened Options
  import opened AuditLog

  /** Everything in the directory, oldest backup first, live file last. */
  function Joined(d: Dir, n: nat): string {
    Content(d, n) + if n == 0 then "" else Joined(d, n - 1)
  }

  /** The one thing a rotation loses, once it gets past the oldest slot. */
  function Lost(d: Dir, keep: nat, rotateAt: nat, cut: Option<nat>): string {
    if Due(d, rotateAt) && (cut.None? || cut.value < keep) then Content(d, keep) else ""
  }

  /** A rotation that fails at slot `i` leaves everything but the oldest backup, in order. */
  lemma {:induction false} MovedJoined(d: Dir, keep: nat, i: nat, n: nat)
    requires i < keep && i + 1 <= n <= keep
    ensures Joined(Moved(d, keep, i), n) == Joined(d, n - 1)
    decreases n
  {
    MovedContent(d, keep, i, n);
    if n > i + 1 {
      MovedJoined(d, keep, i, n - 1);
    } else {
      UnmovedJoined(d, keep, i, i);
      assert "" + Joined(d, i) == Joined(d, i);
    }
  }

  lemma MovedContent(d: Dir, keep: nat, i: nat, n: nat)
    requires i < n <= keep
    ensures Content(Moved(d, keep, i), n) == if n == i + 1 then "" else Content(d, n - 1)
  {
    MovedSlot(d, keep, i, n);
  }

  lemma {:induction false} UnmovedJoined(d: Dir, keep: nat, i: nat, n: nat)
    requires n <= i < keep
    ensures Joined(Moved(d, keep, i), n) == Joined(d, n)
    decreases n
  {
    MovedSlot(d, keep, i, n);
    if n > 0 { UnmovedJoined(d, keep, i, n - 1); }
  }

  /** Every slot up to `keep` holds what the slot before it held. */
  lemma ShiftedIs(d: Dir, keep: nat, j: nat)
    requires keep > 0 && 0 in d
    ensures j in Shifted(d, keep) <==> if j > keep then j in d else 0 < j && j - 1 in d
    ensures j in Shifted(d, keep) ==> Shifted(d, keep)[j] == if j > keep then d[j] else d[j - 1]
  {
    MovedSlot(d, keep, 0, j);
  }

  lemma {:induction false} ShiftedJoined(d: Dir, keep: nat, n: nat)
    requires 0 < n <= keep && 0 in d
    ensures Joined(Shifted(d, keep), n) == Joined(d, n - 1)
    decreases n
  {
    ShiftedIs(d, keep, n);
    ShiftedIs(d, keep, 0);
    if n > 1 {
      ShiftedJoined(d, keep, n - 1);
    } else {
      assert Joined(Shifted(d, keep), 1) == Content(d, 0) + (Content(Shifted(d, keep), 0) + "");
    }
  }

  lemma {:induction false} LiveGrows(d: Dir, line: string, n: nat)
    ensures Joined(d[0 := Content(d, 0) + line], n) == Joined(d, n) + line
    decreases n
  {
    var e := d[0 := Content(d, 0) + line];
    if n == 0 {
      assert Joined(e, 0) == Content(d, 0) + line + "";
    } else {
      LiveGrows(d, line, n - 1);
      assert Content(e, n) == Content(d, n);
      assert Content(d, n) + (Joined(d, n - 1) + line) == Content(d, n) + Joined(d, n - 1) + line;
    }
  }

  lemma RotationLoses(d: Dir, keep: nat, rotateAt: nat, cut: Option<nat>)
    requires keep > 0
    ensures Joined(d, keep) == Lost(d, keep, rotateAt, cut) + Joined(Rotated(d, keep, rotateAt, cut), keep)
  {
    if Due(d, rotateAt) && cut.None? {
      ShiftedJoined(d, keep, keep);
    } else if Due(d, rotateAt) && cut.value < keep {
      MovedJoined(d, keep, cut.value, keep);
    } else {
      assert "" + Joined(d, keep) == Joined(d, keep);
    }
  }

  /** One emit in which nothing fails, slot by slot: below the size the line goes behind the live file's text
      and nothing else changes; from the size on every file moves up one slot, the one in slot `keep` is
      gone, and the line is a new live file. */
  lemma EmitIs(d: Dir, line: string, keep: nat, rotateAt: nat, j: nat)
    requires keep > 0
    ensures var e, full := Emitted(d, line, keep, rotateAt, NO_FAULT), 0 in d && |d[0]| >= rotateAt;
      if j == 0 then 0 in e && e[0] == if 0 in d && !full then d[0] + line else line
      else
        var was := if full && j <= keep then j - 1 else j;
        (j in e <==> was in d) && (j in e ==> e[j] == d[was])
  {
    if 0 in d {
      ShiftedIs(d, keep, j);
      ShiftedIs(d, keep, 0);
    }
    assert "" + line == line;
  }

  /** What one emit adds. */
  function Added(line: string, f: Fault): string {
    if f.appended then line else ""
  }

  /** One emit, whatever fails in it: what was there followed by what was appended is what was lost
      followed by what is there. */
  lemma EmitConserves(d: Dir, line: string, keep: nat, rotateAt: nat, f: Fault)
    requires keep > 0
    ensures Joined(d, keep) + Added(line, f) ==
      Lost(d, keep, rotateAt, f.cut) + Joined(Emitted(d, line, keep, rotateAt, f), keep)
  {
    var r := Rotated(d, keep, rotateAt, f.cut);
    RotationLoses(d, keep, rotateAt, f.cut);
    LiveGrows(r, line, keep);
    Associate(Lost(d, keep, rotateAt, f.cut), Joined(r, keep), Added(line, f));
    assert Joined(r, keep) + "" == Joined(r, keep);
  }

  lemma Associate(a: string, b: string, c: string)
    ensures a + b + c == a + (b + c)
  {
  }

  datatype Call = Call(line: string, fault: Fault)

  function EmitAll(d: Dir, calls: seq<Call>, keep: nat, rotateAt: nat): Dir {
    if calls == [] then d
    else
      var c := calls[|calls| - 1];
      Emitted(EmitAll(d, calls[..|calls| - 1], keep, rotateAt), c.line, keep, rotateAt, c.fault)
  }

  function AllLost(d: Dir, calls: seq<Call>, keep: nat, rotateAt: nat): string {
    if calls == [] then ""
    else
      AllLost(d, calls[..|calls| - 1], keep, rotateAt)
      + Lost(EmitAll(d, calls[..|calls| - 1], keep, rotateAt), keep, rotateAt, calls[|calls| - 1].fault.cut)
  }

  function Written(calls: seq<Call>): string {
    if calls == [] then ""
    else Written(calls[..|calls| - 1]) + Added(calls[|calls| - 1].line, calls[|calls| - 1].fault)
  }

  /** Over every run, from every directory and whatever fails: the oldest backup through the live file is
      a suffix of everything there was and was written, and what is missing at its front is exactly the
      oldest backups that rotations dropped, in order. */
  lemma {:induction false} RunConserves(d: Dir, calls: seq<Call>, keep: nat, rotateAt: nat)
    requires keep > 0
    ensures Joined(d, keep) + Written(calls) == AllLost(d, calls, keep, rotateAt) + Joined(EmitAll(d, calls, keep, rotateAt), keep)
    decreases calls
  {
    if calls == [] {
      assert Joined(d, keep) + "" == "" + Joined(d, keep);
    } else {
      var init, c := calls[..|calls| - 1], calls[|calls| - 1];
      var before := EmitAll(d, init, keep, rotateAt);
      RunConserves(d, init, keep, rotateAt);
      EmitConserves(before, c.line, keep, rotateAt, c.fault);
      Regroup(Joined(d, keep), Written(init), Added(c.line, c.fault), AllLost(d, init, keep, rotateAt), Joined(before, keep),
              Lost(before, keep, rotateAt, c.fault.cut), Joined(EmitAll(d, calls, keep, rotateAt), keep));
    }
  }

  lemma Regroup(a: string, b: string, line: string, all: string, before: string, lost: string, after: string)
    requires a + b == all + before && before + line == lost + after
    ensures a + (b + line) == (all + lost) + after
  {
    assert a + (b + line) == (a + b) + line;
    assert (all + before) + line == all + (before + line);
    assert all + (lost + after) == (all + lost) + after;
  }

  // ---------- how much is kept ----------

  /** Backups numbered without gaps up to `keep`, each at least a full file, none much longer. */
  predicate Regular(d: Dir, keep: nat, rotateAt: nat, longest: nat) {
    && (forall j :: j in d ==> j <= keep && |d[j]| < rotateAt + longest)
    && (forall j :: j in d && j > 0 ==> |d[j]| >= rotateAt)
    && (forall j :: j in d && j > 1 ==> j - 1 in d)
  }

  predicate Full(d: Dir, keep: nat) {
    forall j: nat :: 0 < j <= keep ==> j in d
  }

  lemma {:induction false} AllBelow(d: Dir, keep: nat, rotateAt: nat, longest: nat, j: nat, i: nat)
    requires Regular(d, keep, rotateAt, longest) && j in d && 0 < i <= j
    ensures i in d
    decreases j
  {
    if i < j { AllBelow(d, keep, rotateAt, longest, j - 1, i); }
  }

  lemma EmitKeepsRegular(d: Dir, line: string, keep: nat, rotateAt: nat, longest: nat)
    requires keep > 0 && Regular(d, keep, rotateAt, longest) && 0 < |line| <= longest && rotateAt > 0
    ensures var d' := Emitted(d, line, keep, rotateAt, NO_FAULT);
      && Regular(d', keep, rotateAt, longest)
      && (Full(d, keep) || Lost(d, keep, rotateAt, None) != "" ==> Full(d', keep))
  {
    var r, d' := Rotated(d, keep, rotateAt, None), Emitted(d, line, keep, rotateAt, NO_FAULT);
    assert forall j: nat :: j in r ==> Content(r, j) == r[j];
    if Due(d, rotateAt) {
      forall j: nat | j <= keep || j in r ensures j in r <==> 0 < j <= keep && j - 1 in d {
        ShiftedIs(d, keep, j);
      }
      forall j: nat | j in r ensures r[j] == d[j - 1] { ShiftedIs(d, keep, j); }
      if keep in d {
        forall j: nat | 0 < j <= keep ensures j in r {
          if j > 1 { AllBelow(d, keep, rotateAt, longest, keep, j - 1); }
        }
      }
    }
  }

  lemma {:induction false} FullSize(d: Dir, keep: nat, rotateAt: nat, n: nat)
    requires n <= keep && Full(d, keep) && forall j :: j in d && j > 0 ==> |d[j]| >= rotateAt
    ensures |Joined(d, n)| >= n * rotateAt
    decreases n
  {
    if n > 0 {
      FullSize(d, keep, rotateAt, n - 1);
      assert (n - 1) * rotateAt + rotateAt == n * rotateAt;
    }
  }

  predicate GoodCalls(calls: seq<Call>, longest: nat) {
    forall c :: c in calls ==> 0 < |c.line| <= longest && c.fault == NO_FAULT
  }

  lemma {:induction false} RunKeepsRegular(calls: seq<Call>, keep: nat, rotateAt: nat, longest: nat)
    requires keep > 0 && rotateAt > 0 && GoodCalls(calls, longest)
    ensures var d := EmitAll(map[], calls, keep, rotateAt);
      && Regular(d, keep, rotateAt, longest)
      && (AllLost(map[], calls, keep, rotateAt) != "" ==> Full(d, keep))
    decreases calls
  {
    if calls != [] {
      var init, c := calls[..|calls| - 1], calls[|calls| - 1];
      assert c in calls;
      RunKeepsRegular(init, keep, rotateAt, longest);
      EmitKeepsRegular(EmitAll(map[], init, keep, rotateAt), c.line, keep, rotateAt, longest);
    }
  }

  /** From an empty directory, when nothing fails: at most `keep` backups, every file under the rotation
      size plus one line, and either nothing is ever lost or at least `keep` full files are retained. */
  lemma Retention(calls: seq<Call>, keep: nat, rotateAt: nat, longest: nat)
    requires keep > 0 && rotateAt > 0 && GoodCalls(calls, longest)
    ensures var d := EmitAll(map[], calls, keep, rotateAt);
      && (forall j :: j in d ==> j <= keep && |d[j]| < rotateAt + longest)
      && (Joined(d, keep) == Written(calls) || |Joined(d, keep)| >= keep * rotateAt)
  {
    var d := EmitAll(map[], calls, keep, rotateAt);
    RunKeepsRegular(calls, keep, rotateAt, longest);
    RunConserves(map[], calls, keep, rotateAt);
    EmptyJoined(keep);
    NothingLost(Written(calls), AllLost(map[], calls, keep, rotateAt), Joined(d, keep));
    if AllLost(map[], calls, keep, rotateAt) != "" {
      FullSize(d, keep, rotateAt, keep);
    }
  }

  /** Whatever fails, backups are never numbered above `keep` once they are not. */
  lemma {:induction false} NeverAboveKeep(d: Dir, calls: seq<Call>, keep: nat, rotateAt: nat)
    requires keep > 0 && forall j :: j in d ==> j <= keep
    ensures forall j :: j in EmitAll(d, calls, keep, rotateAt) ==> j <= keep
    decreases calls
  {
    if calls != [] {
      var before, c := EmitAll(d, calls[..|calls| - 1], keep, rotateAt), calls[|calls| - 1];
      NeverAboveKeep(d, calls[..|calls| - 1], keep, rotateAt);
      forall j | j in EmitAll(d, calls, keep, rotateAt) ensures j <= keep { EmittedSlot(before, c, keep, rotateAt, j); }
    }
  }

  lemma EmittedSlot(d: Dir, c: Call, keep: nat, rotateAt: nat, j: nat)
    requires keep > 0 && j in Emitted(d, c.line, keep, rotateAt, c.fault)
    ensures j > keep ==> j in d
  {
    if Due(d, rotateAt) {
      if c.fault.cut.None? {
        ShiftedIs(d, keep, j);
      } else if c.fault.cut.value < keep {
        MovedSlot(d, keep, c.fault.cut.value, j);
      }
    }
  }

  lemma NothingLost(written: string, lost: string, kept: string)
    requires "" + written == lost + kept
    ensures lost == "" ==> kept == written
  {
    assert "" + written == written;
    assert lost == "" ==> lost + kept == kept;
  }

  lemma {:induction false} EmptyJoined(n: nat)
    ensures Joined(map[], n) == ""
  {
    if n > 0 { EmptyJoined(n - 1); }
  }

  /** With no backups to keep, the live file is renamed over the first backup: content newer than the
      oldest file is gone, and one backup stays although none should. */
  lemma NoBackupsOverwrites(live: string, older: string, rotateAt: nat)
    requires |live| >= rotateAt
    ensures Rotated(map[0 := live, 1 := older], 0, rotateAt, None) == map[1 := live]
  {
  }
}
