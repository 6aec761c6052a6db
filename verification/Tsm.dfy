/** The configfs-TSM report interface as a state machine: any number of calls of this process,
    each working on a directory of its own, interleaved in any order with foreign processes.

    What is assumed of the kernel and of foreign processes, and nothing else:
    a new entry starts at generation 0; every accepted attribute write adds one; reads of
    `outblob` and `auxblob` are produced from the attributes as they stand; `generation`
    prints the current value or something that is no number; and foreign processes do not
    remove directories of this process.  Every operation may fail at any time. */
module Tsm {
  import opened Bytes
  import opened Errors
  import opened Decimal
  import opened Request

  // ----- Directories -----

  /** Attributes of an entry; no privilege level means the untouched default. */
  datatype Attrs = Attrs(inblob: seq<byte>, privlevel: Option<string>)

  datatype Owner = Foreigner | OwnedBy(id: nat)

  /** `foreignWrites` counts the writes to this entry that its owner did not make. */
  datatype Dir = Dir(owner: Owner, generation: nat, attrs: Attrs, foreignWrites: nat)

  const UNTOUCHED := Attrs([], None)

  // ----- Calls -----

  /** Bytes a read returned and the attributes they were produced from. */
  datatype Blob = Blob(bytes: seq<byte>, source: Attrs)

  /** `run`, or one of the calls that read a single text attribute. */
  datatype Task = RunTask(request: ReportRequest) | TextTask

  datatype Pc =
    | Naming | Making | WritingLevel | WritingData | ReadingOut | ReadingAux
    | ReadingGeneration | ReadingText | Dropping | Done

  datatype Reply = Blobs(out: seq<byte>, aux: seq<byte>) | Text(text: string)

  /** `seen` is the number of foreign writes at the moment the generation was read. */
  datatype Call = Call(
    id: nat, task: Task, pc: Pc, ticket: nat, name: string, writes: nat,
    out: Blob, aux: Blob, seen: Option<nat>, garbled: bool, settled: Result<Reply>, leaked: bool)

  /** How the kernel reacts to one operation. */
  datatype Reaction =
    | Works(bytes: seq<byte>, text: string)
    | Partial(accepted: nat)
    | Fails(kind: IoKind)

  function LevelText(request: ReportRequest): Option<string> {
    match request.vmpl
    case None => None
    case Some(v) => Some(Render(v))
  }

  /** The attributes a request means to be answered from. */
  function Intended(request: ReportRequest): Attrs {
    Attrs(request.data, LevelText(request))
  }

  function Settle(c: Call, r: Result<Reply>): Call {
    c.(pc := Dropping, settled := r)
  }

  function FirstPc(task: Task): Pc {
    match task
    case TextTask => ReadingText
    case RunTask(request) => if request.vmpl.Some? then WritingLevel else WritingData
  }

  /** The part of a value the kernel takes in one `write` call. */
  function Taken<T>(value: seq<T>, r: Reaction): seq<T> {
    if r.Partial? && r.accepted < |value| then value[..r.accepted] else value
  }

  /** One attribute write: refused, cut short, or accepted whole. */
  function Write(c: Call, d: Dir, whole: Attrs, taken: Attrs, next: Pc, r: Reaction): (Call, Option<Dir>) {
    var d' := d.(generation := d.generation + 1, attrs := taken);
    if r.Fails? then (Settle(c, Err(Io(r.kind))), Some(d))
    else if taken != whole then (Settle(c, Err(Io(WriteZero))), Some(d'))
    else (c.(pc := next, writes := c.writes + 1), Some(d'))
  }

  function ReadBytes(r: Reaction): seq<byte> {
    match r
    case Works(bytes, _) => bytes
    case _ => []
  }

  /** What reading `generation` yields: the value printed, or text that is no number. */
  function GenerationText(d: Dir, r: Reaction): string {
    if r.Works? && ParseU64(Trim(r.text)).None? then r.text else Render(d.generation) + "\n"
  }

  /** The number the client makes of that text. */
  function GenerationValue(text: string): u64 {
    ParseU64(Trim(text)).UnwrapOr(0xFFFF_FFFF_FFFF_FFFF)
  }

  /** One operation of a call on the directory of its own name. */
  function Operate(c: Call, d: Option<Dir>, r: Reaction): (Call, Option<Dir>)
    requires !c.pc.Naming? && !c.pc.Done?
  {
    if c.pc == Making then
      if r.Fails? then (c.(pc := Done, settled := Err(Io(r.kind))), d)
      else if d.Some? then (c.(pc := Done, settled := Err(Io(AlreadyExists))), d)
      else (c.(pc := FirstPc(c.task)), Some(Dir(OwnedBy(c.id), 0, UNTOUCHED, 0)))
    else if c.pc == Dropping then
      if r.Fails? then (c.(pc := Done, leaked := true), d) else (c.(pc := Done), None)
    else if d.None? then (Settle(c, Err(Io(NotFound))), d)
    else OperateInside(c, d.value, r)
  }

  function OperateInside(c: Call, d: Dir, r: Reaction): (Call, Option<Dir>) {
    match c.task
    case TextTask =>
      (Settle(c, if r.Fails? then Err(Io(r.kind)) else Ok(Text(if r.Works? then r.text else ""))), Some(d))
    case RunTask(request) =>
      match c.pc
      case WritingLevel =>
        var level := LevelText(request).UnwrapOr("");
        Write(c, d, d.attrs.(privlevel := Some(level)), d.attrs.(privlevel := Some(Taken(level, r))), WritingData, r)
      case WritingData =>
        Write(c, d, d.attrs.(inblob := request.data), d.attrs.(inblob := Taken(request.data, r)), ReadingOut, r)
      case ReadingOut =>
        if r.Fails? then (Settle(c, Err(Io(r.kind))), Some(d))
        else (c.(pc := ReadingAux, out := Blob(ReadBytes(r), d.attrs)), Some(d))
      case ReadingAux =>
        (c.(pc := ReadingGeneration, aux := Blob(ReadBytes(r), d.attrs)), Some(d))
      case _ =>
        if r.Fails? then (Settle(c, Err(Io(r.kind))), Some(d))
        else
          var text := GenerationText(d, r);
          var checked := c.(seen := Some(d.foreignWrites), garbled := ParseU64(Trim(text)).None?);
          if GenerationValue(text) != c.writes then (Settle(checked, Err(Raced)), Some(d))
          else (Settle(checked, Ok(Blobs(c.out.bytes, c.aux.bytes))), Some(d))
  }

  // ----- The whole system -----

  datatype World = World(pid: nat, counter: nat, begun: nat, dirs: map<string, Dir>, calls: map<nat, Call>)

  datatype Step =
    | Begin(task: Task)
    | TakeName(id: nat)
    | Act(id: nat, reaction: Reaction)
    | ForeignWrite(name: string, attrs: Attrs)
    | ForeignMake(name: string)
    | ForeignRemove(name: string)

  const WRAP := 0x1_0000_0000_0000_0000

  function Init(pid: nat): World {
    World(pid, 0, 0, map[], map[])
  }

  function NewCall(id: nat, task: Task): Call {
    Call(id, task, Naming, 0, "", 0, Blob([], UNTOUCHED), Blob([], UNTOUCHED), None, false, Err(Raced), false)
  }

  function Lookup(dirs: map<string, Dir>, name: string): Option<Dir> {
    if name in dirs then Some(dirs[name]) else None
  }

  function Put(dirs: map<string, Dir>, name: string, d: Option<Dir>): map<string, Dir> {
    match d
    case None => dirs - {name}
    case Some(dir) => dirs[name := dir]
  }

  predicate Enabled(s: World, step: Step) {
    match step
    case Begin(_) => true
    case TakeName(id) => id in s.calls && s.calls[id].pc == Naming
    case Act(id, _) => id in s.calls && s.calls[id].pc != Naming && s.calls[id].pc != Done
    case ForeignWrite(name, _) => name in s.dirs
    case ForeignMake(name) => name !in s.dirs
    case ForeignRemove(name) => name in s.dirs && s.dirs[name].owner == Foreigner
  }

  function Foreign(d: Dir, attrs: Attrs): Dir {
    d.(attrs := attrs, generation := d.generation + 1, foreignWrites := d.foreignWrites + 1)
  }

  function Next(s: World, step: Step): World
    requires Enabled(s, step)
  {
    match step
    case Begin(task) =>
      s.(begun := s.begun + 1, calls := s.calls[s.begun := NewCall(s.begun, task)])
    case TakeName(id) =>
      var named := s.calls[id].(pc := Making, ticket := s.counter, name := EntryName(s.pid, s.counter % WRAP));
      s.(counter := s.counter + 1, calls := s.calls[id := named])
    case Act(id, r) =>
      var c := s.calls[id];
      var (c', d') := Operate(c, Lookup(s.dirs, c.name), r);
      s.(calls := s.calls[id := c'], dirs := Put(s.dirs, c.name, d'))
    case ForeignWrite(name, attrs) => s.(dirs := s.dirs[name := Foreign(s.dirs[name], attrs)])
    case ForeignMake(name) => s.(dirs := s.dirs[name := Dir(Foreigner, 0, UNTOUCHED, 0)])
    case ForeignRemove(name) => s.(dirs := s.dirs - {name})
  }

  /** A schedule: steps that are not possible when their turn comes are passed over. */
  function Play(s: World, steps: seq<Step>): World
    decreases steps
  {
    if steps == [] then s
    else Play(if Enabled(s, steps[0]) then Next(s, steps[0]) else s, steps[1..])
  }

  // ----- The invariant of one call and its directory -----

  /** Between creating its directory and removing it. */
  predicate Holding(c: Call) {
    !c.pc.Naming? && !c.pc.Making? && !c.pc.Done?
  }

  function ExpectedWrites(pc: Pc, request: ReportRequest): nat {
    match pc
    case WritingLevel => 0
    case WritingData => if request.vmpl.Some? then 1 else 0
    case _ => if request.vmpl.Some? then 2 else 1
  }

  /** What the entry looks like at this point if nobody else has written to it. */
  function ExpectedAttrs(pc: Pc, request: ReportRequest): Attrs {
    match pc
    case WritingLevel => UNTOUCHED
    case WritingData => Attrs([], LevelText(request))
    case _ => Intended(request)
  }

  predicate RunProgress(c: Call, d: Dir, request: ReportRequest) {
    && (c.pc == WritingLevel ==> request.vmpl.Some?)
    && c.writes == ExpectedWrites(c.pc, request)
    && d.generation == d.foreignWrites + c.writes
    && (d.foreignWrites == 0 ==>
          && d.attrs == ExpectedAttrs(c.pc, request)
          && (c.pc == ReadingAux || c.pc == ReadingGeneration ==> c.out.source == Intended(request))
          && (c.pc == ReadingGeneration ==> c.aux.source == Intended(request)))
  }

  predicate Progress(c: Call, d: Dir) {
    && d.owner == OwnedBy(c.id)
    && (c.pc != Dropping ==>
          match c.task
          case TextTask => c.pc == ReadingText
          case RunTask(request) => c.pc != ReadingText && c.seen == None && !c.garbled && RunProgress(c, d, request))
  }

  /** What a settled `run` may have returned: an I/O error if it never got to compare the
      generation; otherwise success exactly when no foreign write had hit the entry and the
      generation was readable, and a race in every other case. */
  predicate RunSettled(c: Call, request: ReportRequest) {
    match c.seen
    case None => c.settled.Err? && c.settled.error.Io?
    case Some(n) =>
      if n == 0 && !c.garbled then
        && c.settled == Ok(Blobs(c.out.bytes, c.aux.bytes))
        && c.out.source == Intended(request)
        && c.aux.source == Intended(request)
      else c.settled == Err(Raced)
  }

  predicate Settled(c: Call) {
    match c.task
    case TextTask => if c.settled.Ok? then c.settled.value.Text? else c.settled.error.Io?
    case RunTask(request) => RunSettled(c, request)
  }

  predicate CallInv(c: Call, d: Option<Dir>) {
    && (c.pc.Naming? || c.pc.Making? ==> c.writes == 0 && c.seen == None && !c.garbled)
    && (Holding(c) ==> d.Some? && Progress(c, d.value))
    && (c.pc.Dropping? || c.pc.Done? ==> Settled(c))
  }

  lemma GenerationReading(d: Dir, r: Reaction)
    requires !r.Fails?
    ensures var text := GenerationText(d, r);
            && (ParseU64(Trim(text)).None? ==> GenerationValue(text) == 0xFFFF_FFFF_FFFF_FFFF)
            && (ParseU64(Trim(text)).Some? ==> GenerationValue(text) == d.generation)
  {
    ParseOfPrinted(d.generation);
  }

  lemma WriteKeeps(c: Call, d: Dir, r: Reaction)
    requires c.task.RunTask? && (c.pc == WritingLevel || c.pc == WritingData) && CallInv(c, Some(d))
    ensures var (c', d') := OperateInside(c, d, r); CallInv(c', d') && d'.Some? && d'.value.owner == d.owner
  {
  }

  lemma ReadKeeps(c: Call, d: Dir, r: Reaction)
    requires c.task.RunTask? && (c.pc == ReadingOut || c.pc == ReadingAux) && CallInv(c, Some(d))
    ensures var (c', d') := OperateInside(c, d, r); CallInv(c', d') && d'.Some? && d'.value.owner == d.owner
  {
  }

  lemma CompareKeeps(c: Call, d: Dir, r: Reaction)
    requires c.task.RunTask? && c.pc == ReadingGeneration && CallInv(c, Some(d))
    ensures var (c', d') := OperateInside(c, d, r); CallInv(c', d') && d'.Some? && d'.value.owner == d.owner
  {
    if !r.Fails? {
      GenerationReading(d, r);
    }
  }

  lemma InsideKeeps(c: Call, d: Dir, r: Reaction)
    requires Holding(c) && c.pc != Dropping && CallInv(c, Some(d))
    ensures var (c', d') := OperateInside(c, d, r);
            CallInv(c', d') && d'.Some? && d'.value.owner == d.owner && Holding(c')
  {
    if c.task.RunTask? {
      match c.pc
      case WritingLevel => WriteKeeps(c, d, r);
      case WritingData => WriteKeeps(c, d, r);
      case ReadingOut => ReadKeeps(c, d, r);
      case ReadingAux => ReadKeeps(c, d, r);
      case _ => CompareKeeps(c, d, r);
    }
  }

  /** No operation of a call, whatever the kernel's reaction, breaks its invariant. */
  lemma OperateKeeps(c: Call, d: Option<Dir>, r: Reaction)
    requires !c.pc.Naming? && !c.pc.Done? && CallInv(c, d)
    ensures var (c', d') := Operate(c, d, r); CallInv(c', d')
  {
    if Holding(c) && c.pc != Dropping {
      InsideKeeps(c, d.value, r);
    }
  }

  predicate SameIdentity(c: Call, c': Call) {
    c'.id == c.id && c'.name == c.name && c'.ticket == c.ticket && c'.task == c.task
  }

  lemma WriteFixes(c: Call, d: Dir, whole: Attrs, taken: Attrs, next: Pc, r: Reaction)
    ensures SameIdentity(c, Write(c, d, whole, taken, next, r).0)
  {
  }

  lemma InsideFixes(c: Call, d: Dir, r: Reaction)
    ensures SameIdentity(c, OperateInside(c, d, r).0)
  {
    match c.task
    case TextTask =>
    case RunTask(request) =>
      match c.pc
      case WritingLevel =>
        var level := LevelText(request).UnwrapOr("");
        var taken := Taken(level, r);
        WriteFixes(c, d, d.attrs.(privlevel := Some(level)), d.attrs.(privlevel := Some(taken)), WritingData, r);
      case WritingData =>
        WriteFixes(c, d, d.attrs.(inblob := request.data), d.attrs.(inblob := Taken(request.data, r)), ReadingOut, r);
      case ReadingOut =>
      case ReadingAux =>
      case _ =>
  }

  /** What an operation may do to the directory of that name: create it where there was none,
      change what it owns, remove what it owns, or leave it alone. */
  lemma OperateFootprint(c: Call, d: Option<Dir>, r: Reaction)
    requires !c.pc.Naming? && !c.pc.Done? && CallInv(c, d)
    ensures var (c', d') := Operate(c, d, r);
            && SameIdentity(c, c') && !c'.pc.Naming? && !c'.pc.Making?
            && (c.pc == Making ==> if Holding(c') then d == None else d' == d)
            && (Holding(c') ==> d'.Some? && d'.value.owner == OwnedBy(c.id))
            && (c.pc == Dropping ==> d' == None || (d' == d && c'.leaked))
            && (Holding(c) && c.pc != Dropping ==> Holding(c'))
  {
    if Holding(c) && c.pc != Dropping {
      InsideKeeps(c, d.value, r);
      InsideFixes(c, d.value, r);
    }
  }

  /** Nor does a foreign write to the call's directory. */
  lemma ForeignKeeps(c: Call, d: Dir, attrs: Attrs)
    requires CallInv(c, Some(d))
    ensures CallInv(c, Some(Foreign(d, attrs)))
  {
  }
}
