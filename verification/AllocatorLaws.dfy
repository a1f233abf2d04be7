/** What holds over every run of allocator operations: disjointness, stability, exact exhaustion. */
module AllocatorLaws {
  import opened Colons
  import opened Options
  import opened Allocator

  // ---------- disjointness ----------

  /** Another id, and a port pair that shares no port. */
  predicate Apart(a: Allocation, mpId: int, rtpPort: int) {
    a.mpId != mpId && !(-1 <= a.rtpPort - rtpPort <= 1)
  }

  /** Distinct keys hold distinct ids and disjoint RTP/RTCP pairs. */
  ghost predicate Disjoint(st: State) {
    forall j, k :: j in st && k in st && j != k ==> Apart(st[j], st[k].mpId, st[k].rtpPort)
  }

  lemma ClashesIs(a: Allocation, mpId: int, rtpPort: int)
    ensures Clashes(a, mpId, rtpPort) <==> !Apart(a, mpId, rtpPort)
  {
    var p, q := {rtpPort, rtpPort + 1}, {a.rtpPort, a.rtpPort + 1};
    if -1 <= a.rtpPort - rtpPort <= 1 {
      assert (if a.rtpPort >= rtpPort then a.rtpPort else rtpPort) in p * q;
    } else {
      assert p * q == {};
    }
  }

  lemma {:induction false} LowestIdIs(used: set<int>, i: int)
    ensures var r := LowestId(used, i);
      if r.Some? then i <= r.value <= MP_ID_MAX && r.value !in used && forall m :: i <= m < r.value ==> m in used
      else forall m :: i <= m <= MP_ID_MAX ==> m in used
    decreases MP_ID_MAX - i
  {
    if i <= MP_ID_MAX && i in used { LowestIdIs(used, i + 1); }
  }

  predicate Slot(p: int) {
    5006 <= p < 5099 && p % 2 == 0
  }

  predicate SlotFree(used: set<int>, p: int) {
    Slot(p) && p !in used && p + 1 !in used
  }

  lemma {:induction false} LowestPortIs(used: set<int>, p: int)
    requires p % 2 == 0 && PORT_MIN <= p
    ensures var r := LowestPort(used, p);
      if r.Some? then r.value >= p && SlotFree(used, r.value) && forall q :: p <= q < r.value ==> !SlotFree(used, q)
      else forall q :: p <= q ==> !SlotFree(used, q)
    decreases PORT_MAX - p
  {
    if p < PORT_MAX && !(p !in used && p + 1 !in used) { LowestPortIs(used, p + 2); }
  }

  /** What a successful pick returns clashes with nothing held, and is the lowest such. */
  lemma PickIsFree(st: State, mp: int, port: int)
    requires PickFree(HeldIds(st), HeldPorts(st)).0 == Some((mp, port))
    ensures forall k :: k in st ==> Apart(st[k], mp, port)
    ensures 1306 <= mp <= 1999 && Slot(port)
    ensures forall m :: 1306 <= m < mp ==> m in HeldIds(st)
    ensures forall q :: q < port ==> !SlotFree(HeldPorts(st), q)
  {
    LowestIdIs(HeldIds(st), MP_ID_MIN);
    LowestPortIs(HeldPorts(st), PORT_MIN);
    forall k | k in st ensures Apart(st[k], mp, port) {
      ClashesIs(st[k], mp, port);
      assert st[k].mpId in HeldIds(st);
      assert st[k].rtpPort in HeldPorts(st) && st[k].rtpPort + 1 in HeldPorts(st);
    }
  }

  lemma AddKeepsDisjoint(st: State, k: string, a: Allocation)
    requires Disjoint(st) && k !in st && forall j :: j in st ==> Apart(st[j], a.mpId, a.rtpPort)
    ensures Disjoint(st[k := a])
  {
  }

  lemma StepKeepsDisjoint(st: State, op: Op)
    requires Disjoint(st)
    ensures Disjoint(Apply(st, op).0)
  {
    match op
    case Allocate(serial, sensor) =>
      var k := Key(serial, sensor);
      var (free, _) := PickFree(HeldIds(st), HeldPorts(st));
      if k !in st && free.Some? {
        PickIsFree(st, free.value.0, free.value.1);
        AddKeepsDisjoint(st, k, Allocation(free.value.0, free.value.1, false));
      }
    case Ensure(serial, sensor, mpId, rtpPort) =>
      if Key(serial, sensor) !in st && !exists j :: j in st && Clashes(st[j], mpId, rtpPort) {
        forall j | j in st ensures Apart(st[j], mpId, rtpPort) { ClashesIs(st[j], mpId, rtpPort); }
        AddKeepsDisjoint(st, Key(serial, sensor), Allocation(mpId, rtpPort, false));
      }
    case _ =>
  }

  // ---------- runs on the state file ----------

  /** An operation, and whether the file can be read and written at that moment. */
  datatype Attempt = Attempt(op: Op, readable: bool)

  /** What cannot be read raises and stays as it is. */
  function Tried(f: File, a: Attempt): (File, Outcome) {
    if a.readable then Transact(f, a.op) else (f, Transact(IoError, a.op).1)
  }

  function RunOps(f: File, ops: seq<Attempt>): File {
    if ops == [] then f else Tried(RunOps(f, ops[..|ops| - 1]), ops[|ops| - 1]).0
  }

  /** Over every run of operations on every file, through unreadable moments: distinct keys hold distinct
      ids and disjoint port pairs. */
  lemma {:induction false} RunsStayDisjoint(f: File, ops: seq<Attempt>)
    requires Disjoint(ListAllocations(f))
    ensures Disjoint(ListAllocations(RunOps(f, ops)))
    decreases ops
  {
    if ops != [] {
      var before, op := RunOps(f, ops[..|ops| - 1]), ops[|ops| - 1];
      RunsStayDisjoint(f, ops[..|ops| - 1]);
      if op.readable && Load(before).Some? {
        assert Load(before).value.0 == ListAllocations(before);
        StepKeepsDisjoint(ListAllocations(before), op.op);
      }
    }
  }

  /** The op takes the key's record away: its release, or its migration to another key. */
  predicate Removes(op: Op, k: string) {
    || (op.Release? && Key(op.serial, op.sensor) == k)
    || (op.MigrateColor? && k == Key(LOCAL_SERIAL, "color"))
  }

  predicate Sets(op: Op, k: string) {
    op.SetDesired? && Key(op.serial, op.sensor) == k
  }

  /** The last flag set for the key in a run, or what it was before. */
  function LastFlag(ops: seq<Attempt>, k: string, flag: bool): bool {
    if ops == [] then flag
    else if ops[|ops| - 1].readable && Sets(ops[|ops| - 1].op, k) then ops[|ops| - 1].op.active
    else LastFlag(ops[..|ops| - 1], k, flag)
  }

  /** A held key keeps its id and ports until it is released or migrated, through every other
      operation, failed or not, and through unreadable moments; its flag is the last one set. */
  lemma {:induction false} HeldUntilRemoved(f: File, ops: seq<Attempt>, k: string)
    requires k in ListAllocations(f)
    requires forall a :: a in ops && a.readable ==> !Removes(a.op, k)
    ensures k in ListAllocations(RunOps(f, ops))
    ensures ListAllocations(RunOps(f, ops))[k] ==
      ListAllocations(f)[k].(desired := LastFlag(ops, k, ListAllocations(f)[k].desired))
    decreases ops
  {
    if ops != [] {
      HeldUntilRemoved(f, ops[..|ops| - 1], k);
      assert ops[|ops| - 1] in ops;
    }
  }

  /** An operation that raises leaves the file as it was, and only failures raise. */
  lemma RaisingChangesNothing(f: File, op: Op)
    ensures var (f', out) := Transact(f, op);
      && (out.Raised? ==> f' == f)
      && (!out.Raised? ==> f' == f || Classify(f') == StatusOk)
      && (op.Release? || op.MigrateColor? ==> !out.Raised? || f == IoError)
  {
  }

  /** Migration carries the whole record over, touches nothing else, and is done once. */
  lemma MigrationCarriesRecord(f: File, serial: string)
    requires Transact(f, MigrateColor(serial)).1 == Answer(true)
    ensures var legacy, canonical := Key(LOCAL_SERIAL, "color"), Key(serial, "color");
      var st, st' := ListAllocations(f), ListAllocations(Transact(f, MigrateColor(serial)).0);
      && legacy in st && canonical !in st && st' == (st - {legacy})[canonical := st[legacy]]
      && st'.Keys == st.Keys - {legacy} + {canonical} && legacy !in st'
      && Transact(Transact(f, MigrateColor(serial)).0, MigrateColor(serial)).1 == Answer(false)
  {
    KeysDiffer(serial);
  }

  lemma KeysDiffer(serial: string)
    requires serial != LOCAL_SERIAL
    ensures Key(serial, "color") != Key(LOCAL_SERIAL, "color")
  {
    var a, b := Key(serial, "color"), Key(LOCAL_SERIAL, "color");
    if |serial| == |LOCAL_SERIAL| {
      assert a[..|serial|] == serial && b[..|serial|] == LOCAL_SERIAL;
    }
  }

  // ---------- what the operations record ----------

  /** The records after an operation and what it answers. */
  function After(f: File, op: Op): State {
    ListAllocations(Transact(f, op).0)
  }

  function Said(f: File, op: Op): Outcome {
    Transact(f, op).1
  }

  /** What `allocate` returns is what is recorded under its key; everything else stays, and asking again
      returns the same and changes nothing. */
  lemma AllocateRecords(f: File, serial: string, sensor: string)
    requires f != IoError
    ensures var op, k, st := Allocate(serial, sensor), serial + ":" + sensor, ListAllocations(f);
      && !Said(f, op).Answer?
      && (k in st ==> Said(f, op) == Record(st[k]))
      && (Said(f, op).Raised? ==> k !in st && After(f, op) == st)
      && (Said(f, op).Record? ==>
            var a := Said(f, op).record;
            && After(f, op) == st[k := a]
            && (k !in st ==> !a.desired && 1306 <= a.mpId <= 1999 && Slot(a.rtpPort))
            && (k !in st ==> forall j :: j in st ==> Apart(st[j], a.mpId, a.rtpPort))
            && Said(Transact(f, op).0, op) == Record(a) && After(Transact(f, op).0, op) == After(f, op))
  {
    var st := ListAllocations(f);
    var (free, _) := PickFree(HeldIds(st), HeldPorts(st));
    if free.Some? { PickIsFree(st, free.value.0, free.value.1); }
    if Said(f, Allocate(serial, sensor)).Record? && serial + ":" + sensor in st {
      assert st[serial + ":" + sensor := st[serial + ":" + sensor]] == st;
    }
  }

  /** So for `ensure`, with the id and port that were asked for; it refuses if and only if another key is in
      the way. */
  lemma EnsureRecords(f: File, serial: string, sensor: string, mpId: int, rtpPort: int)
    requires f != IoError
    ensures var op, k, st := Ensure(serial, sensor, mpId, rtpPort), serial + ":" + sensor, ListAllocations(f);
      if k in st then Said(f, op) == Record(st[k]) && After(f, op) == st
      else if exists j :: j in st && !Apart(st[j], mpId, rtpPort) then Said(f, op).Raised? && After(f, op) == st
      else
        var a := Allocation(mpId, rtpPort, false);
        Said(f, op) == Record(a) && After(f, op) == st[k := a]
  {
    var st := ListAllocations(f);
    forall j | j in st ensures Clashes(st[j], mpId, rtpPort) <==> !Apart(st[j], mpId, rtpPort) {
      ClashesIs(st[j], mpId, rtpPort);
    }
  }

  /** `set_desired` sets the flag of a held key; `release` takes the key away; migration moves the record
      exactly when there is one to move and a place for it. */
  lemma OthersRecord(f: File, serial: string, sensor: string, active: bool)
    requires f != IoError
    ensures var k, st := serial + ":" + sensor, ListAllocations(f);
      && After(f, SetDesired(serial, sensor, active)) ==
           (if k in st then st[k := Allocation(st[k].mpId, st[k].rtpPort, active)] else st)
      && (k in st ==> Said(f, SetDesired(serial, sensor, active)) == Record(Allocation(st[k].mpId, st[k].rtpPort, active)))
      && (k !in st ==> Said(f, SetDesired(serial, sensor, active)).Raised?)
      && After(f, Release(serial, sensor)) == st - {k}
      && Said(f, Release(serial, sensor)) == Answer(k in st)
      && Said(f, MigrateColor(serial)) ==
           Answer(serial != "local" && serial != "" && "local:color" in st && serial + ":color" !in st)
      && (Said(f, MigrateColor(serial)) == Answer(false) ==> After(f, MigrateColor(serial)) == st)
  {
    var k, st := serial + ":" + sensor, ListAllocations(f);
    if k !in st { assert st - {k} == st; }
    assert "local" + ":" + "color" == "local:color";
    assert serial + ":" + "color" == serial + ":color";
  }

  /** Keys of different cameras or sensors differ, unless a sensor's name has a colon. */
  lemma KeysTellApart(serial: string, sensor: string, serial': string, sensor': string)
    requires ':' !in sensor && ':' !in sensor'
    ensures Key(serial, sensor) == Key(serial', sensor') <==> serial == serial' && sensor == sensor'
  {
    if Key(serial, sensor) == Key(serial', sensor') { LastColon(serial, sensor, serial', sensor'); }
  }

  predicate Hands(op: Op, k: string) {
    (op.Allocate? || op.Ensure?) && op.serial + ":" + op.sensor == k
  }

  lemma {:induction false} RunAppend(f: File, a: seq<Attempt>, b: seq<Attempt>)
    ensures RunOps(f, a + b) == RunOps(RunOps(f, a), b)
    decreases b
  {
    if b == [] {
      assert a + b == a;
    } else {
      assert (a + b)[..|a + b| - 1] == a + b[..|b| - 1];
      RunAppend(f, a, b[..|b| - 1]);
    }
  }

  lemma HandedIsHeld(f: File, a: Attempt, k: string)
    requires Hands(a.op, k) && Tried(f, a).1.Record?
    ensures a.readable && f != IoError
    ensures k in ListAllocations(Tried(f, a).0) && ListAllocations(Tried(f, a).0)[k] == Tried(f, a).1.record
    ensures forall j :: j in ListAllocations(f) && j != k ==>
      j in ListAllocations(Tried(f, a).0) && ListAllocations(Tried(f, a).0)[j] == ListAllocations(f)[j]
  {
    if a.op.Allocate? {
      AllocateRecords(f, a.op.serial, a.op.sensor);
    } else {
      EnsureRecords(f, a.op.serial, a.op.sensor, a.op.mpId, a.op.rtpPort);
    }
  }

  /** Over every run: what `allocate` and `ensure` hand out under different keys, the first not taken away in
      between, differs in id and shares no port. */
  lemma HandedOutApart(f: File, before: seq<Attempt>, first: Attempt, between: seq<Attempt>, second: Attempt, j: string, k: string)
    requires Disjoint(ListAllocations(f)) && j != k && Hands(first.op, j) && Hands(second.op, k)
    requires forall a :: a in between && a.readable ==> !Removes(a.op, j)
    requires Tried(RunOps(f, before), first).1.Record?
    requires Tried(RunOps(f, before + [first] + between), second).1.Record?
    ensures var a, b := Tried(RunOps(f, before), first).1.record, Tried(RunOps(f, before + [first] + between), second).1.record;
      Apart(a, b.mpId, b.rtpPort)
  {
    var f1 := RunOps(f, before + [first]);
    var f2 := RunOps(f, before + [first] + between);
    assert (before + [first])[..|before|] == before;
    HandedIsHeld(RunOps(f, before), first, j);
    RunAppend(f, before + [first], between);
    HeldUntilRemoved(f1, between, j);
    HandedIsHeld(f2, second, k);
    RunsStayDisjoint(f, before + [first] + between + [second]);
    assert (before + [first] + between + [second])[..|before + [first] + between|] == before + [first] + between;
    var st := ListAllocations(Tried(f2, second).0);
    assert j in st && k in st && Apart(st[j], st[k].mpId, st[k].rtpPort);
  }

  // ---------- exhaustion ----------

  /** The slot of the even-port scan that a held pair at `p` takes, and the second one if it is
      odd-aligned. */
  function BlockedBy(p: int): set<int> {
    if p % 2 == 0 then {p} else {p - 1, p + 1}
  }

  function Blocked(st: State, keys: set<string>): set<int>
    requires keys <= st.Keys
  {
    set k, q | k in keys && q in BlockedBy(st[k].rtpPort) :: q
  }

  lemma {:induction false} BlockedSize(st: State, keys: set<string>)
    requires keys <= st.Keys
    ensures |Blocked(st, keys)| <= 2 * |keys|
    ensures (forall k :: k in keys ==> st[k].rtpPort % 2 == 0) ==> |Blocked(st, keys)| <= |keys|
    decreases keys
  {
    if keys == {} {
      assert Blocked(st, keys) == {};
    } else {
      var k :| k in keys;
      var rest := keys - {k};
      BlockedSize(st, rest);
      assert Blocked(st, keys) == Blocked(st, rest) + BlockedBy(st[k].rtpPort);
      assert |keys| == |rest| + 1;
    }
  }

  lemma FreeSlotUnblocked(st: State, p: int)
    requires Slot(p) && p !in Blocked(st, st.Keys)
    ensures SlotFree(HeldPorts(st), p)
  {
    forall k | k in st ensures st[k].rtpPort != p && st[k].rtpPort + 1 != p && st[k].rtpPort != p + 1 {
      assert forall q :: q in BlockedBy(st[k].rtpPort) ==> q in Blocked(st, st.Keys);
    }
  }

  /** The first `n` slots of the scan. */
  function Slots(n: nat): (s: set<int>)
    ensures |s| == n && forall p :: p in s <==> PORT_MIN <= p < PORT_MIN + 2 * n && p % 2 == 0
  {
    if n == 0 then {}
    else
      var s := Slots(n - 1);
      s + {PORT_MIN + 2 * (n - 1)}
  }

  function Ids(n: nat): (s: set<int>)
    ensures |s| == n && forall i :: i in s <==> MP_ID_MIN <= i < MP_ID_MIN + n
  {
    if n == 0 then {} else Ids(n - 1) + {MP_ID_MIN + n - 1}
  }

  lemma {:induction false} HeldIdsSize(st: State, keys: set<string>)
    requires keys <= st.Keys
    ensures |set k | k in keys :: st[k].mpId| <= |keys|
    decreases keys
  {
    if keys == {} {
      assert (set k | k in keys :: st[k].mpId) == {};
    } else {
      var k :| k in keys;
      HeldIdsSize(st, keys - {k});
      assert (set j | j in keys :: st[j].mpId) == (set j | j in keys - {k} :: st[j].mpId) + {st[k].mpId};
    }
  }

  lemma SubsetSize(a: set<int>, b: set<int>)
    requires b <= a
    ensures |b| <= |a|
  {
    assert a == b + (a - b);
  }

  predicate IdHeld(st: State, m: int) {
    exists k :: k in st && st[k].mpId == m
  }

  predicate PortHeld(st: State, p: int) {
    exists k :: k in st && (st[k].rtpPort == p || st[k].rtpPort + 1 == p)
  }

  lemma HeldAre(st: State, x: int)
    ensures x in HeldIds(st) <==> IdHeld(st, x)
    ensures x in HeldPorts(st) <==> PortHeld(st, x)
  {
  }

  predicate IdLeftOver(st: State, m: int) {
    1306 <= m <= 1999 && !IdHeld(st, m)
  }

  predicate PairLeftOver(st: State, p: int) {
    Slot(p) && !PortHeld(st, p) && !PortHeld(st, p + 1)
  }

  /** `allocate` fails only on true exhaustion: for a new key it succeeds exactly when some id and
      some even-aligned pair of the pools are free; otherwise it says which pool is exhausted. */
  lemma AllocateSucceedsIff(st: State, serial: string, sensor: string)
    requires Key(serial, sensor) !in st
    ensures var out := Apply(st, Allocate(serial, sensor)).1;
      && (out.Record? <==> (exists m :: IdLeftOver(st, m)) && exists p :: PairLeftOver(st, p))
      && (out == Raised(IdsExhausted) <==> forall m :: !IdLeftOver(st, m))
  {
    LowestIdIs(HeldIds(st), MP_ID_MIN);
    LowestPortIs(HeldPorts(st), PORT_MIN);
    forall m ensures IdLeftOver(st, m) <==> MP_ID_MIN <= m <= MP_ID_MAX && m !in HeldIds(st) { HeldAre(st, m); }
    forall p ensures PairLeftOver(st, p) <==> SlotFree(HeldPorts(st), p) {
      HeldAre(st, p);
      HeldAre(st, p + 1);
    }
    var (free, _) := PickFree(HeldIds(st), HeldPorts(st));
    if free.Some? {
      assert IdLeftOver(st, free.value.0) && PairLeftOver(st, free.value.1);
    }
  }

  lemma IdLeft(st: State)
    requires |st| < 694
    ensures LowestId(HeldIds(st), MP_ID_MIN).Some?
  {
    LowestIdIs(HeldIds(st), MP_ID_MIN);
    HeldIdsSize(st, st.Keys);
    if LowestId(HeldIds(st), MP_ID_MIN).None? {
      SubsetSize(HeldIds(st), Ids(694));
    }
  }

  lemma SlotLeft(st: State)
    requires |Blocked(st, st.Keys)| < 47
    ensures LowestPort(HeldPorts(st), PORT_MIN).Some?
  {
    if LowestPort(HeldPorts(st), PORT_MIN).None? {
      NoneUnblocked(st);
      AtLeast(Blocked(st, st.Keys), 47);
    }
  }

  lemma NoneUnblocked(st: State)
    requires LowestPort(HeldPorts(st), PORT_MIN).None?
    ensures forall p :: Slot(p) ==> p in Blocked(st, st.Keys)
  {
    LowestPortIs(HeldPorts(st), PORT_MIN);
    forall p | Slot(p) ensures p in Blocked(st, st.Keys) {
      if p !in Blocked(st, st.Keys) { FreeSlotUnblocked(st, p); }
    }
  }

  lemma AtLeast(blocked: set<int>, n: nat)
    requires n <= 47 && forall p :: Slot(p) ==> p in blocked
    ensures |blocked| >= n
  {
    SubsetSize(blocked, Slots(n));
  }

  /** Fewer than 24 held pairs, wherever `ensure` put them, always leave room; fewer than 47 do if
      they are even-aligned. */
  lemma RoomLeft(st: State, serial: string, sensor: string)
    requires Key(serial, sensor) !in st
    requires |st| < 24 || (|st| < 47 && forall k :: k in st ==> st[k].rtpPort % 2 == 0)
    ensures Apply(st, Allocate(serial, sensor)).1.Record?
  {
    BlockedSize(st, st.Keys);
    IdLeft(st);
    SlotLeft(st);
  }

  function Name(i: nat): string {
    seq(i + 1, _ => 'k')
  }

  /** `n` keys on disjoint pairs, `gap` ports apart. */
  function Crowd(n: nat, first: int, gap: int): State {
    if n == 0 then map[]
    else Crowd(n - 1, first, gap)[Name(n - 1) := Allocation(n - 1, first + gap * (n - 1), false)]
  }

  /** A member of a crowd is known by the length of its name. */
  lemma {:induction false} CrowdMember(n: nat, first: int, gap: int, k: string)
    requires k in Crowd(n, first, gap)
    ensures 1 <= |k| <= n && k == Name(|k| - 1)
    ensures Crowd(n, first, gap)[k] == Allocation(|k| - 1, first + gap * (|k| - 1), false)
  {
    if k != Name(n - 1) {
      CrowdMember(n - 1, first, gap, k);
    }
  }

  lemma {:induction false} CrowdHas(n: nat, first: int, gap: int, i: nat)
    requires i < n
    ensures Name(i) in Crowd(n, first, gap)
  {
    if i < n - 1 { CrowdHas(n - 1, first, gap, i); }
  }

  lemma {:induction false} CrowdSize(n: nat, first: int, gap: int)
    ensures |Crowd(n, first, gap)| == n
  {
    if n > 0 {
      CrowdSize(n - 1, first, gap);
      if Name(n - 1) in Crowd(n - 1, first, gap) {
        CrowdMember(n - 1, first, gap, Name(n - 1));
        assert false;
      }
    }
  }

  lemma CrowdDisjoint(n: nat, first: int, gap: int)
    requires gap == 2 || gap == 4
    ensures Disjoint(Crowd(n, first, gap))
  {
    var st := Crowd(n, first, gap);
    forall j, k | j in st && k in st && j != k ensures Apart(st[j], st[k].mpId, st[k].rtpPort) {
      CrowdMember(n, first, gap, j);
      CrowdMember(n, first, gap, k);
      assert |j| != |k|;
      assert gap * (|j| - 1) - gap * (|k| - 1) == gap * (|j| - |k|);
      ClashesIs(st[j], st[k].mpId, st[k].rtpPort);
    }
  }

  /** A crowd takes every slot of the scan. */
  lemma CrowdTakesAll(n: nat, first: int, gap: int, p: int)
    requires (n, first, gap) == (24, PORT_MIN + 1, 4) || (n, first, gap) == (47, PORT_MIN, 2)
    requires Slot(p)
    ensures !SlotFree(HeldPorts(Crowd(n, first, gap)), p)
  {
    var i: nat := if gap == 4 then (p - PORT_MIN) / 4 else (p - PORT_MIN) / 2;
    assert i < n;
    CrowdHas(n, first, gap, i);
    CrowdMember(n, first, gap, Name(i));
    PairHeld(Crowd(n, first, gap), Name(i), p);
  }

  lemma PairHeld(st: State, k: string, p: int)
    requires k in st && -1 <= st[k].rtpPort - p <= 1
    ensures !SlotFree(HeldPorts(st), p)
  {
    assert st[k].rtpPort in HeldPorts(st) && st[k].rtpPort + 1 in HeldPorts(st);
  }

  /** Both bounds are exact: 24 odd-aligned pairs, or 47 even-aligned ones, already exhaust the
      pool, on disjoint pairs and with ids to spare. */
  lemma BoundsAreTight(n: nat, first: int, gap: int, serial: string, sensor: string)
    requires (n, first, gap) == (24, PORT_MIN + 1, 4) || (n, first, gap) == (47, PORT_MIN, 2)
    ensures var st := Crowd(n, first, gap);
      && Disjoint(st) && |st| == n && Key(serial, sensor) !in st
      && Apply(st, Allocate(serial, sensor)).1 == Raised(PortsExhausted)
  {
    var st, k := Crowd(n, first, gap), Key(serial, sensor);
    CrowdSize(n, first, gap);
    CrowdDisjoint(n, first, gap);
    assert k[|serial|] == ':';
    if k in st {
      CrowdMember(n, first, gap, k);
      assert false;
    }
    forall p | Slot(p) ensures !SlotFree(HeldPorts(st), p) { CrowdTakesAll(n, first, gap, p); }
    LowestPortIs(HeldPorts(st), PORT_MIN);
    IdsSpared(n, first, gap);
    LowestIdIs(HeldIds(st), MP_ID_MIN);
  }

  lemma IdsSpared(n: nat, first: int, gap: int)
    requires n < MP_ID_MIN
    ensures MP_ID_MIN !in HeldIds(Crowd(n, first, gap))
  {
    var st := Crowd(n, first, gap);
    forall k | k in st ensures st[k].mpId != MP_ID_MIN { CrowdMember(n, first, gap, k); }
  }

  // ---------- reading, writing and probing ----------

  /** The write path starts from exactly what the read path reports, on every readable file, so a
      completed operation is visible to the next read; but the probe and the attempt to quarantine
      part ways exactly on a file with no `allocations` key to find. */
  lemma ReadsAndWritesAgree(f: File, op: Op)
    requires f != IoError
    ensures Load(f).Some? && Load(f).value.0 == ListAllocations(f)
    ensures ListAllocations(Transact(f, op).0) == Apply(ListAllocations(f), op).0
    ensures (Load(f).value.1 <==> Classify(f) == StatusCorrupt) <==> !(f in {Missing, Blank, Object(Absent)})
  {
  }
}
