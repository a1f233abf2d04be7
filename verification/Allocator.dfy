/** The mountpoint and RTP port allocator (app/services/mountpoint_allocator.py). `Store` is the
    locked state file; every method is one locked section. */
module Allocator {
  import opened Options

  const MP_ID_MIN := 1306
  const MP_ID_MAX := 1999
  const PORT_MIN := 5006
  const PORT_MAX := 5099

  const LOCAL_SERIAL := "local"

  datatype Allocation = Allocation(mpId: int, rtpPort: int, desired: bool)

  type State = map<string, Allocation>

  function Key(serial: string, sensor: string): string {
    serial + ":" + sensor
  }

  // ---------- operations on the allocation map ----------

  datatype Op =
    | Allocate(serial: string, sensor: string)
    | Ensure(serial: string, sensor: string, mpId: int, rtpPort: int)
    | SetDesired(serial: string, sensor: string, active: bool)
    | Release(serial: string, sensor: string)
    | MigrateColor(serial: string)

  datatype Failure = IdsExhausted | PortsExhausted | Refused | NoAllocation | Unreadable

  datatype Outcome = Record(record: Allocation) | Answer(done: bool) | Raised(failure: Failure)

  function HeldIds(st: State): set<int> {
    set k | k in st :: st[k].mpId
  }

  function HeldPorts(st: State): set<int> {
    (set k | k in st :: st[k].rtpPort) + (set k | k in st :: st[k].rtpPort + 1)
  }

  /** The lowest id not used, from `i` up. */
  function LowestId(used: set<int>, i: int): Option<int>
    decreases MP_ID_MAX - i
  {
    if i > MP_ID_MAX then None else if i !in used then Some(i) else LowestId(used, i + 1)
  }

  /** The lowest pair not used, from `p` up in steps of two. */
  function LowestPort(used: set<int>, p: int): Option<int>
    decreases PORT_MAX - p
  {
    if p >= PORT_MAX then None
    else if p !in used && p + 1 !in used then Some(p)
    else LowestPort(used, p + 2)
  }

  function PickFree(ids: set<int>, ports: set<int>): (Option<(int, int)>, Failure) {
    match LowestId(ids, MP_ID_MIN)
    case None => (None, IdsExhausted)
    case Some(i) =>
      match LowestPort(ports, PORT_MIN)
      case None => (None, PortsExhausted)
      case Some(p) => (Some((i, p)), PortsExhausted)
  }

  /** A held pair or id stands in the way of registering (`mpId`, `rtpPort`). */
  predicate Clashes(a: Allocation, mpId: int, rtpPort: int) {
    a.mpId == mpId || {rtpPort, rtpPort + 1} * {a.rtpPort, a.rtpPort + 1} != {}
  }

  function Apply(st: State, op: Op): (State, Outcome) {
    match op
    case Allocate(serial, sensor) =>
      var k := Key(serial, sensor);
      if k in st then (st, Record(st[k]))
      else
        var (free, failure) := PickFree(HeldIds(st), HeldPorts(st));
        if free.None? then (st, Raised(failure))
        else
          var a := Allocation(free.value.0, free.value.1, false);
          (st[k := a], Record(a))
    case Ensure(serial, sensor, mpId, rtpPort) =>
      var k := Key(serial, sensor);
      if k in st then (st, Record(st[k]))
      else if exists j :: j in st && Clashes(st[j], mpId, rtpPort) then (st, Raised(Refused))
      else
        var a := Allocation(mpId, rtpPort, false);
        (st[k := a], Record(a))
    case SetDesired(serial, sensor, active) =>
      var k := Key(serial, sensor);
      if k !in st then (st, Raised(NoAllocation))
      else
        var a := st[k].(desired := active);
        (st[k := a], Record(a))
    case Release(serial, sensor) =>
      var k := Key(serial, sensor);
      if k !in st then (st, Answer(false)) else (st - {k}, Answer(true))
    case MigrateColor(serial) =>
      var legacy, canonical := Key(LOCAL_SERIAL, "color"), Key(serial, "color");
      if serial == LOCAL_SERIAL || serial == "" then (st, Answer(false))
      else if legacy !in st || canonical in st then (st, Answer(false))
      else ((st - {legacy})[canonical := st[legacy]], Answer(true))
  }

  // ---------- the state file ----------

  datatype Field = Absent | NotDict | Dict(st: State)

  datatype File =
    | Missing
    | IoError
    | Blank
    | BadJson
    | NotObject
    | Object(allocations: Field)

  datatype Status = StatusOk | StatusMissing | StatusCorrupt | StatusIoError

  /** The write path: the map a mutation starts from, and whether it first tries to quarantine the file. */
  function Load(f: File): Option<(State, bool)> {
    match f
    case IoError => None
    case Object(Dict(st)) => Some((st, false))
    case _ => Some((map[], true))
  }

  /** The read path: any corruption reads as empty. */
  function ListAllocations(f: File): State {
    match f
    case Object(Dict(st)) => st
    case _ => map[]
  }

  /** The health probe. */
  function Classify(f: File): Status {
    match f
    case Missing => StatusMissing
    case IoError => StatusIoError
    case Blank => StatusOk
    case BadJson => StatusCorrupt
    case NotObject => StatusCorrupt
    case Object(Absent) => StatusOk
    case Object(NotDict) => StatusCorrupt
    case Object(Dict(_)) => StatusOk
  }

  /** One locked section: load, apply, persist unless something was raised. Migration answers for
      the sentinel serial without opening the file. */
  function Transact(f: File, op: Op): (File, Outcome) {
    if op.MigrateColor? && (op.serial == LOCAL_SERIAL || op.serial == "") then (f, Answer(false))
    else
      match Load(f)
      case None => (f, Raised(Unreadable))
      case Some((st, _)) =>
        var (st', out) := Apply(st, op);
        if out.Raised? then (f, out) else (Object(Dict(st')), out)
  }

  // ---------- the program ----------

  method FindFree(ids: set<int>, ports: set<int>) returns (free: Option<(int, int)>, failure: Failure)
    ensures (free, failure) == PickFree(ids, ports)
  {
    failure := IdsExhausted;
    var i := MP_ID_MIN;
    while i <= MP_ID_MAX && i in ids
      invariant MP_ID_MIN <= i <= MP_ID_MAX + 1
      invariant LowestId(ids, MP_ID_MIN) == LowestId(ids, i)
    {
      i := i + 1;
    }
    if i > MP_ID_MAX {
      return None, IdsExhausted;
    }
    failure := PortsExhausted;
    var p := PORT_MIN;
    while p < PORT_MAX
      invariant LowestPort(ports, PORT_MIN) == LowestPort(ports, p)
    {
      if p !in ports && p + 1 !in ports {
        return Some((i, p)), PortsExhausted;
      }
      p := p + 2;
    }
    free := None;
  }

  class Store {
    var file: File

    constructor (f: File)
      ensures file == f
    {
      file := f;
    }

    method Allocate(serial: string, sensor: string) returns (out: Outcome)
      modifies this
      ensures (file, out) == Transact(old(file), Op.Allocate(serial, sensor))
    {
      var loaded := Load(file);
      if loaded.None? {
        return Raised(Unreadable);
      }
      var st, k := loaded.value.0, Key(serial, sensor);
      if k in st {
        out := Record(st[k]);
      } else {
        var free, failure := FindFree(HeldIds(st), HeldPorts(st));
        if free.None? {
          return Raised(failure);
        }
        var a := Allocation(free.value.0, free.value.1, false);
        st, out := st[k := a], Record(a);
      }
      file := Object(Dict(st));
    }

    method Ensure(serial: string, sensor: string, mpId: int, rtpPort: int) returns (out: Outcome)
      modifies this
      ensures (file, out) == Transact(old(file), Op.Ensure(serial, sensor, mpId, rtpPort))
    {
      var loaded := Load(file);
      if loaded.None? {
        return Raised(Unreadable);
      }
      var st, k := loaded.value.0, Key(serial, sensor);
      if k in st {
        out := Record(st[k]);
      } else {
        var others := st.Keys;
        while others != {}
          invariant others <= st.Keys
          invariant forall j :: j in st && j !in others ==> !Clashes(st[j], mpId, rtpPort)
          decreases others
        {
          var j :| j in others;
          if Clashes(st[j], mpId, rtpPort) {
            return Raised(Refused);
          }
          others := others - {j};
        }
        var a := Allocation(mpId, rtpPort, false);
        st, out := st[k := a], Record(a);
      }
      file := Object(Dict(st));
    }

    method SetDesired(serial: string, sensor: string, active: bool) returns (out: Outcome)
      modifies this
      ensures (file, out) == Transact(old(file), Op.SetDesired(serial, sensor, active))
    {
      var loaded := Load(file);
      if loaded.None? {
        return Raised(Unreadable);
      }
      var st, k := loaded.value.0, Key(serial, sensor);
      if k !in st {
        return Raised(NoAllocation);
      }
      var updated := st[k].(desired := active);
      file := Object(Dict(st[k := updated]));
      out := Record(updated);
    }

    method Release(serial: string, sensor: string) returns (out: Outcome)
      modifies this
      ensures (file, out) == Transact(old(file), Op.Release(serial, sensor))
    {
      var loaded := Load(file);
      if loaded.None? {
        return Raised(Unreadable);
      }
      var st, k := loaded.value.0, Key(serial, sensor);
      if k !in st {
        out := Answer(false);
      } else {
        st, out := st - {k}, Answer(true);
      }
      file := Object(Dict(st));
    }

    method MigrateColorKey(serial: string) returns (out: Outcome)
      modifies this
      ensures (file, out) == Transact(old(file), MigrateColor(serial))
    {
      if serial == LOCAL_SERIAL || serial == "" {
        return Answer(false);
      }
      var loaded := Load(file);
      if loaded.None? {
        return Raised(Unreadable);
      }
      var st := loaded.value.0;
      var legacy, canonical := Key(LOCAL_SERIAL, "color"), Key(serial, "color");
      if legacy !in st || canonical in st {
        out := Answer(false);
      } else {
        var record := st[legacy];
        st := st - {legacy};
        st, out := st[canonical := record], Answer(true);
      }
      file := Object(Dict(st));
    }
  }
}
