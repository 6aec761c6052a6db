/** The configfs-TSM transport (src/backend/configfs.rs) as the program it is: it creates an
    entry, writes and reads files under it, and drops it.  Each operation first lets every
    other call and process take any steps it likes, so that an execution of the program is a
    run of the state machine; what the program returns is what the machine settled on. */
module ConfigFs {
  import opened Bytes
  import opened Errors
  import opened Decimal
  import opened Report
  import opened Request
  import opened Certs
  import opened Tsm
  import opened TsmRuns

  const PROVIDER := "sev_guest"

  // ----- The kernel as the program meets it -----

  /** What everybody else does before the next operation, and how the kernel reacts to it. */
  datatype Turn = Turn(others: seq<Step>, reaction: Reaction)

  predicate ActsFor(step: Step, id: nat) {
    (step.TakeName? || step.Act?) && step.id == id
  }

  function Without(id: nat, steps: seq<Step>): seq<Step> {
    if steps == [] then []
    else (if ActsFor(steps[0], id) then [] else [steps[0]]) + Without(id, steps[1..])
  }

  /** Calls that have ended stay as they are, and no call is forgotten. */
  ghost predicate Kept(s: World, s': World) {
    && s'.pid == s.pid
    && s.begun <= s'.begun
    && forall id :: id in s.calls ==>
         id in s'.calls && (s.calls[id].pc == Done ==> s'.calls[id] == s.calls[id])
  }

  lemma NextKeepsEnded(s: World, step: Step)
    requires Inv(s) && Enabled(s, step)
    ensures Kept(s, Next(s, step))
  {
    forall id | id in s.calls
      ensures id in Next(s, step).calls && (s.calls[id].pc == Done ==> Next(s, step).calls[id] == s.calls[id])
    {
      assert CallAt(s, id);
    }
  }

  lemma NextSpares(s: World, step: Step, id: nat)
    requires Inv(s) && Enabled(s, step) && id in s.calls && !ActsFor(step, id)
    ensures Next(s, step).calls[id] == s.calls[id]
  {
    assert CallAt(s, id);
  }

  lemma {:induction false} OthersKeep(s: World, id: nat, steps: seq<Step>)
    requires Inv(s) && id in s.calls
    ensures var s' := Play(s, Without(id, steps));
            Inv(s') && Kept(s, s') && id in s'.calls && s'.calls[id] == s.calls[id]
    decreases steps
  {
    if steps != [] {
      var rest := Without(id, steps[1..]);
      if ActsFor(steps[0], id) {
        assert Without(id, steps) == rest;
        OthersKeep(s, id, steps[1..]);
      } else {
        assert Without(id, steps)[0] == steps[0] && Without(id, steps)[1..] == rest;
        if Enabled(s, steps[0]) {
          NextKeeps(s, steps[0]);
          NextKeepsEnded(s, steps[0]);
          NextSpares(s, steps[0], id);
          OthersKeep(Next(s, steps[0]), id, steps[1..]);
        } else {
          OthersKeep(s, id, steps[1..]);
        }
      }
    }
  }

  lemma TakenWhole<T>(value: seq<T>, r: Reaction)
    ensures |Taken(value, r)| == |value| <==> Taken(value, r) == value
  {
  }

  function TextSettlement(text: Result<string>): Result<Reply> {
    match text
    case Ok(t) => Ok(Text(t))
    case Err(e) => Err(e)
  }

  // ----- What the program sees of a reaction -----

  /** The number of elements one `write` call reports. */
  function TakenBy<T>(value: seq<T>, reaction: Reaction): Result<nat> {
    if reaction.Fails? then Err(Io(reaction.kind)) else Ok(|Taken(value, reaction)|)
  }

  /** `write_attr` after that: anything short of the whole value is an error. */
  function Written(taken: Result<nat>, length: nat): Result<()> {
    match taken
    case Err(e) => Err(e)
    case Ok(n) => if n != length then Err(Io(WriteZero)) else Ok(())
  }

  function Received(reaction: Reaction): Result<seq<byte>> {
    if reaction.Fails? then Err(Io(reaction.kind)) else Ok(ReadBytes(reaction))
  }

  /** The kernel printed the generation or, if it pleased, text that is no number. */
  predicate Printed(reaction: Reaction, r: Result<string>) {
    && (reaction.Fails? ==> r == Err(Io(reaction.kind)))
    && (!reaction.Fails? ==> r.Ok?)
    && (Garbled(reaction) ==> r == Ok(reaction.text))
  }

  predicate Garbled(reaction: Reaction) {
    reaction.Works? && ParseU64(Trim(reaction.text)).None?
  }

  /** What the machine has settled on when the program is about to return r. */
  function Settlement(r: Result<(seq<byte>, seq<byte>)>): Result<Reply> {
    match r
    case Ok((out, aux)) => Ok(Blobs(out, aux))
    case Err(e) => Err(e)
  }

  /** The end of `run`: unparsable text stands for a generation no client reaches. */
  function Judged(out: seq<byte>, aux: seq<byte>, writes: nat, text: Result<string>): Result<(seq<byte>, seq<byte>)> {
    match text
    case Err(e) => Err(e)
    case Ok(t) =>
      var generation := ParseU64(Trim(t)).UnwrapOr(0xFFFF_FFFF_FFFF_FFFF);
      if generation != writes then Err(Raced) else Ok((out, aux))
  }

  function AfterWrite(c: Call, next: Pc, r: Result<()>): Call {
    match r
    case Ok(_) => c.(pc := next, writes := c.writes + 1)
    case Err(e) => Settle(c, Err(e))
  }

  lemma LevelWritten(c: Call, d: Dir, r: Reaction, text: string)
    requires c.pc == WritingLevel && c.task.RunTask? && LevelText(c.task.request) == Some(text)
    ensures Operate(c, Some(d), r).0 == AfterWrite(c, WritingData, Written(TakenBy(text, r), |text|))
  {
    TakenWhole(text, r);
  }

  lemma DataWritten(c: Call, d: Dir, r: Reaction)
    requires c.pc == WritingData && c.task.RunTask?
    ensures var data := c.task.request.data;
            Operate(c, Some(d), r).0 == AfterWrite(c, ReadingOut, Written(TakenBy(data, r), |data|))
  {
    TakenWhole(c.task.request.data, r);
  }

  class Kernel {
    const script: nat -> Turn
    var clock: nat
    var s: World
    ghost var trace: seq<Step>

    /** The state is the outcome of a schedule. */
    ghost predicate Valid()
      reads this
    {
      s == Play(Init(s.pid), trace)
    }

    constructor (pid: nat, script: nat -> Turn)
      ensures Valid() && s == Init(pid) && this.script == script
    {
      this.script := script;
      clock := 0;
      s := Init(pid);
      trace := [];
    }

    lemma Sound()
      requires Valid()
      ensures Inv(s)
    {
      EverySchedule(s.pid, trace);
    }

    method Extend(ghost steps: seq<Step>, s': World)
      requires Valid() && s' == Play(s, steps) && s'.pid == s.pid
      modifies this
      ensures Valid() && s == s' && clock == old(clock)
    {
      PlayConcat(Init(s.pid), trace, steps);
      s := s';
      trace := trace + steps;
    }

    /** Takes one step of the machine. */
    method Take(step: Step)
      requires Valid() && Enabled(s, step)
      modifies this
      ensures Valid() && s == Next(old(s), step) && Kept(old(s), s) && clock == old(clock)
    {
      Sound();
      NextKeepsEnded(s, step);
      assert Play(s, [step]) == Next(s, step);
      Extend([step], Next(s, step));
    }

    /** Lets the others go first, then says how the kernel will react to call `id`. */
    method Await(id: nat) returns (reaction: Reaction)
      requires Valid() && id in s.calls
      modifies this
      ensures Valid() && Kept(old(s), s) && id in s.calls && s.calls[id] == old(s.calls[id])
      ensures clock == old(clock) + 1 && reaction == script(old(clock)).reaction
    {
      var turn := script(clock);
      clock := clock + 1;
      Sound();
      OthersKeep(s, id, turn.others);
      Extend(Without(id, turn.others), Play(s, Without(id, turn.others)));
      return turn.reaction;
    }

    method StartCall(task: Task) returns (id: nat)
      requires Valid()
      modifies this
      ensures Valid() && Kept(old(s), s)
      ensures id !in old(s.calls) && id in s.calls && s.calls[id] == NewCall(id, task)
    {
      Sound();
      id := s.begun;
      assert id in s.calls ==> CallAt(s, id);
      Take(Begin(task));
    }

    /** Lets the others go first, then performs the operation call `id` is at; what it found
        under the name of the call, and how the kernel reacted. */
    method Perform(id: nat) returns (reaction: Reaction, found: Option<Dir>)
      requires Valid() && id in s.calls && s.calls[id].pc != Naming && s.calls[id].pc != Done
      modifies this
      ensures Valid() && Kept(old(s), s) && id in s.calls
      ensures clock == old(clock) + 1 && reaction == script(old(clock)).reaction
      ensures Holding(old(s.calls[id])) ==> found.Some?
      ensures s.calls[id] == Operate(old(s.calls[id]), found, reaction).0
    {
      reaction := Await(id);
      found := Lookup(s.dirs, s.calls[id].name);
      Sound();
      assert CallAt(s, id);
      Take(Act(id, reaction));
    }

    /** `COUNTER.fetch_add(1)` */
    method FetchAdd(id: nat) returns (n: nat)
      requires Valid() && id in s.calls && s.calls[id].pc == Naming
      modifies this
      ensures Valid() && Kept(old(s), s) && id in s.calls
      ensures var c := s.calls[id];
              && c == old(s.calls[id]).(pc := Making, ticket := c.ticket, name := EntryName(s.pid, n))
    {
      var reaction := Await(id);
      n := s.counter % WRAP;
      Take(TakeName(id));
    }

    /** `fs::create_dir` */
    method CreateDir(id: nat, path: string) returns (r: Result<()>)
      requires Valid() && id in s.calls && s.calls[id].pc == Making && s.calls[id].name == path
      modifies this
      ensures Valid() && Kept(old(s), s) && id in s.calls
      ensures var c := old(s.calls[id]);
              match r
              case Ok(_) => s.calls[id] == c.(pc := FirstPc(c.task))
              case Err(e) => s.calls[id] == c.(pc := Done, settled := Err(e))
    {
      var reaction, found := Perform(id);
      if reaction.Fails? {
        r := Err(Io(reaction.kind));
      } else if found.Some? {
        r := Err(Io(AlreadyExists));
      } else {
        r := Ok(());
      }
    }

    /** Opens the attribute and hands the whole value over in one `write`; the number of
        elements the kernel took. */
    method WriteLevel(id: nat, path: string, text: string) returns (r: Result<nat>)
      requires Valid() && id in s.calls && s.calls[id].pc == WritingLevel && s.calls[id].name == path
      requires s.calls[id].task.RunTask? && LevelText(s.calls[id].task.request) == Some(text)
      modifies this
      ensures Valid() && Kept(old(s), s) && id in s.calls && clock == old(clock) + 1
      ensures r == TakenBy(text, script(old(clock)).reaction)
      ensures s.calls[id] == AfterWrite(old(s.calls[id]), WritingData, Written(r, |text|))
    {
      ghost var c := s.calls[id];
      var reaction, found := Perform(id);
      LevelWritten(c, found.value, reaction, text);
      r := TakenBy(text, reaction);
    }

    method WriteData(id: nat, path: string, data: seq<byte>) returns (r: Result<nat>)
      requires Valid() && id in s.calls && s.calls[id].pc == WritingData && s.calls[id].name == path
      requires s.calls[id].task.RunTask? && s.calls[id].task.request.data == data
      modifies this
      ensures Valid() && Kept(old(s), s) && id in s.calls && clock == old(clock) + 1
      ensures r == TakenBy(data, script(old(clock)).reaction)
      ensures s.calls[id] == AfterWrite(old(s.calls[id]), ReadingOut, Written(r, |data|))
    {
      ghost var c := s.calls[id];
      var reaction, found := Perform(id);
      DataWritten(c, found.value, reaction);
      r := TakenBy(data, reaction);
    }

    method ReadOut(id: nat, path: string) returns (r: Result<seq<byte>>)
      requires Valid() && id in s.calls && s.calls[id].pc == ReadingOut && s.calls[id].name == path
      requires s.calls[id].task.RunTask?
      modifies this
      ensures Valid() && Kept(old(s), s) && id in s.calls && clock == old(clock) + 1
      ensures r == Received(script(old(clock)).reaction)
      ensures var c := old(s.calls[id]);
              match r
              case Ok(bytes) =>
                s.calls[id] == c.(pc := ReadingAux, out := s.calls[id].out) && s.calls[id].out.bytes == bytes
              case Err(e) => s.calls[id] == Settle(c, Err(e))
    {
      var reaction, _ := Perform(id);
      r := Received(reaction);
    }

    method ReadAux(id: nat, path: string) returns (r: Result<seq<byte>>)
      requires Valid() && id in s.calls && s.calls[id].pc == ReadingAux && s.calls[id].name == path
      requires s.calls[id].task.RunTask?
      modifies this
      ensures Valid() && Kept(old(s), s) && id in s.calls && clock == old(clock) + 1
      ensures r == Received(script(old(clock)).reaction)
      ensures s.calls[id] == old(s.calls[id]).(pc := ReadingGeneration, aux := s.calls[id].aux)
      ensures s.calls[id].aux.bytes == if r.Ok? then r.value else []
    {
      var reaction, _ := Perform(id);
      r := Received(reaction);
    }

    method ReadGeneration(id: nat, path: string) returns (r: Result<string>)
      requires Valid() && id in s.calls && s.calls[id].pc == ReadingGeneration && s.calls[id].name == path
      requires s.calls[id].task.RunTask?
      modifies this
      ensures Valid() && Kept(old(s), s) && id in s.calls && clock == old(clock) + 1
      ensures SameIdentity(old(s.calls[id]), s.calls[id]) && s.calls[id].pc == Dropping
      ensures var c := old(s.calls[id]);
              s.calls[id].settled == Settlement(Judged(c.out.bytes, c.aux.bytes, c.writes, r))
      ensures Printed(script(old(clock)).reaction, r)
    {
      var reaction, found := Perform(id);
      r := if reaction.Fails? then Err(Io(reaction.kind)) else Ok(GenerationText(found.value, reaction));
    }

    method ReadText(id: nat, path: string) returns (r: Result<string>)
      requires Valid() && id in s.calls && s.calls[id].pc == ReadingText && s.calls[id].name == path
      requires s.calls[id].task.TextTask?
      modifies this
      ensures Valid() && Kept(old(s), s) && id in s.calls
      ensures s.calls[id] == Settle(old(s.calls[id]), TextSettlement(r))
    {
      var reaction, _ := Perform(id);
      r := if reaction.Fails? then Err(Io(reaction.kind)) else Ok(if reaction.Works? then reaction.text else "");
    }

    /** `fs::remove_dir`, its result ignored. */
    method RemoveDir(id: nat, path: string)
      requires Valid() && id in s.calls && s.calls[id].pc == Dropping && s.calls[id].name == path
      modifies this
      ensures Valid() && Kept(old(s), s) && id in s.calls
      ensures s.calls[id] == old(s.calls[id]).(pc := Done, leaked := s.calls[id].leaked)
    {
      var _, _ := Perform(id);
    }
  }

  // ----- The program -----

  function BlobsFrom(out: Reaction, aux: Reaction): Result<(seq<byte>, seq<byte>)> {
    if out.Fails? then Err(Io(out.kind))
    else Ok((ReadBytes(out), if aux.Fails? then [] else ReadBytes(aux)))
  }

  /** What the reaction to the last reading makes of the blobs: text that is no number counts
      as the largest u64, hence as a race unless that many writes were made. */
  predicate Judges(generation: Reaction, out: seq<byte>, aux: seq<byte>, writes: nat,
                   r: Result<(seq<byte>, seq<byte>)>) {
    && (generation.Fails? <==> r.Err? && r.error != Raced)
    && (generation.Fails? ==> r == Err(Io(generation.kind)))
    && (Garbled(generation) ==> (r == Err(Raced) <==> writes != 0xFFFF_FFFF_FFFF_FFFF))
    && (r.Ok? ==> r == Ok((out, aux)))
  }

  lemma JudgedAsPrinted(generation: Reaction, out: seq<byte>, aux: seq<byte>, writes: nat, text: Result<string>)
    requires Printed(generation, text)
    ensures Judges(generation, out, aux, writes, Judged(out, aux, writes, text))
  {
  }

  /** A call whose blobs and generation the kernel answered in these ways came to r. */
  predicate Collects(out: Reaction, aux: Reaction, generation: Reaction, writes: nat,
                     r: Result<(seq<byte>, seq<byte>)>) {
    match BlobsFrom(out, aux)
    case Err(e) => r == Err(e)
    case Ok((o, a)) => Judges(generation, o, a, writes, r)
  }

  /** The answer made of a run's blobs. */
  function ReportFrom(request: ReportRequest, blobs: Result<(seq<byte>, seq<byte>)>): Result<AttestationReport> {
    match blobs
    case Err(e) => Err(e)
    case Ok((out, _)) => Checked(request, out)
  }

  function ExtendedFrom(request: ReportRequest, blobs: Result<(seq<byte>, seq<byte>)>): Result<ExtendedReport> {
    match ReportFrom(request, blobs)
    case Err(e) => Err(e)
    case Ok(report) =>
      match Decode(blobs.value.1)
      case Err(e) => Err(e)
      case Ok(table) => Ok(Extended(report, table))
  }

  /** Call `id` began after s, has ended, and settled on r. */
  ghost predicate EndedWith(s: World, s': World, id: nat, task: Task, r: Result<Reply>) {
    && id !in s.calls && id in s'.calls
    && s'.calls[id].pc == Done && s'.calls[id].task == task && s'.calls[id].settled == r
  }

  class ConfigFs {
    const kernel: Kernel

    constructor (kernel: Kernel)
      ensures this.kernel == kernel
    {
      this.kernel := kernel;
    }

    /** `Entry::create` */
    method CreateEntry(task: Task) returns (r: Result<string>, id: nat)
      requires kernel.Valid()
      modifies kernel
      ensures kernel.Valid() && Kept(old(kernel.s), kernel.s)
      ensures id !in old(kernel.s.calls) && id in kernel.s.calls
      ensures var c := kernel.s.calls[id];
              && c.task == task && c.writes == 0
              && match r
                 case Ok(path) => c.pc == FirstPc(task) && c.name == path
                 case Err(e) => c.pc == Done && c.settled == Err(e)
    {
      id := kernel.StartCall(task);
      var n := kernel.FetchAdd(id);
      var path := EntryName(kernel.s.pid, n);
      var made := kernel.CreateDir(id, path);
      r := match made case Ok(_) => Ok(path) case Err(e) => Err(e);
    }

    /** `write_attr` of the privilege level: anything short of the whole text is an error. */
    method WriteLevelAttr(id: nat, path: string, text: string) returns (r: Result<()>)
      requires kernel.Valid() && id in kernel.s.calls
      requires var c := kernel.s.calls[id];
               c.pc == WritingLevel && c.name == path && c.task.RunTask? && LevelText(c.task.request) == Some(text)
      modifies kernel
      ensures kernel.Valid() && Kept(old(kernel.s), kernel.s) && id in kernel.s.calls
      ensures kernel.s.calls[id] == AfterWrite(old(kernel.s.calls[id]), WritingData, r)
      ensures kernel.clock == old(kernel.clock) + 1
      ensures var reaction := kernel.script(old(kernel.clock)).reaction;
              match reaction
              case Fails(kind) => r == Err(Io(kind))
              case _ => r == if Taken(text, reaction) == text then Ok(()) else Err(Io(WriteZero))
    {
      var taken := kernel.WriteLevel(id, path, text);
      TakenWhole(text, kernel.script(old(kernel.clock)).reaction);
      if taken.Err? {
        return Err(taken.error);
      }
      return if taken.value != |text| then Err(Io(WriteZero)) else Ok(());
    }

    /** `write_attr` of the request data. */
    method WriteDataAttr(id: nat, path: string, data: seq<byte>) returns (r: Result<()>)
      requires kernel.Valid() && id in kernel.s.calls
      requires var c := kernel.s.calls[id];
               c.pc == WritingData && c.name == path && c.task.RunTask? && c.task.request.data == data
      modifies kernel
      ensures kernel.Valid() && Kept(old(kernel.s), kernel.s) && id in kernel.s.calls
      ensures kernel.s.calls[id] == AfterWrite(old(kernel.s.calls[id]), ReadingOut, r)
      ensures kernel.clock == old(kernel.clock) + 1
      ensures var reaction := kernel.script(old(kernel.clock)).reaction;
              match reaction
              case Fails(kind) => r == Err(Io(kind))
              case _ => r == if Taken(data, reaction) == data then Ok(()) else Err(Io(WriteZero))
    {
      var taken := kernel.WriteData(id, path, data);
      TakenWhole(data, kernel.script(old(kernel.clock)).reaction);
      if taken.Err? {
        return Err(taken.error);
      }
      return if taken.value != |data| then Err(Io(WriteZero)) else Ok(());
    }

    /** Writes the privilege level if the request names one, counting the write. */
    method WriteLevelIfAsked(request: ReportRequest, id: nat, path: string) returns (r: Result<u64>)
      requires kernel.Valid() && id in kernel.s.calls
      requires var c := kernel.s.calls[id];
               c.task == RunTask(request) && c.pc == FirstPc(c.task) && c.name == path && c.writes == 0
      modifies kernel
      ensures kernel.Valid() && Kept(old(kernel.s), kernel.s) && id in kernel.s.calls
      ensures var c := kernel.s.calls[id];
              && c.task == RunTask(request) && c.name == path
              && match r
                 case Ok(writes) => c.pc == WritingData && c.writes == writes <= 1
                 case Err(e) => c.pc == Dropping && c.settled == Err(e)
    {
      if request.vmpl.None? {
        return Ok(0);
      }
      var written := WriteLevelAttr(id, path, Render(request.vmpl.value));
      if written.Err? {
        return Err(written.error);
      }
      return Ok(1);
    }

    /** Writes the attributes of the request, counting the writes. */
    method WriteRequest(request: ReportRequest, id: nat, path: string) returns (r: Result<u64>)
      requires kernel.Valid() && id in kernel.s.calls
      requires var c := kernel.s.calls[id];
               c.task == RunTask(request) && c.pc == FirstPc(c.task) && c.name == path && c.writes == 0
      modifies kernel
      ensures kernel.Valid() && Kept(old(kernel.s), kernel.s) && id in kernel.s.calls
      ensures var c := kernel.s.calls[id];
              && c.task == RunTask(request) && c.name == path
              && match r
                 case Ok(writes) => c.pc == ReadingOut && c.writes == writes
                 case Err(e) => c.pc == Dropping && c.settled == Err(e)
    {
      var writes := WriteLevelIfAsked(request, id, path);
      if writes.Err? {
        return writes;
      }
      var written := WriteDataAttr(id, path, request.data);
      if written.Err? {
        return Err(written.error);
      }
      return Ok(writes.value + 1);
    }

    /** The body of `run` between the creation of the entry and its drop. */
    method Transact(request: ReportRequest, id: nat, path: string) returns (r: Result<(seq<byte>, seq<byte>)>)
      requires kernel.Valid() && id in kernel.s.calls
      requires var c := kernel.s.calls[id];
               c.task == RunTask(request) && c.pc == FirstPc(c.task) && c.name == path && c.writes == 0
      modifies kernel
      ensures kernel.Valid() && Kept(old(kernel.s), kernel.s) && id in kernel.s.calls
      ensures var c := kernel.s.calls[id];
              c.task == RunTask(request) && c.pc == Dropping && c.name == path && c.settled == Settlement(r)
    {
      var written := WriteRequest(request, id, path);
      if written.Err? {
        return Err(written.error);
      }
      r := Collect(id, path, written.value);
    }

    /** Reads both blobs and compares the generation with the writes made. */
    method Collect(id: nat, path: string, writes: u64) returns (r: Result<(seq<byte>, seq<byte>)>)
      requires kernel.Valid() && id in kernel.s.calls
      requires var c := kernel.s.calls[id];
               c.task.RunTask? && c.pc == ReadingOut && c.name == path && c.writes == writes
      modifies kernel
      ensures kernel.Valid() && Kept(old(kernel.s), kernel.s) && id in kernel.s.calls
      ensures var c := kernel.s.calls[id];
              c.task == old(kernel.s.calls[id]).task && c.pc == Dropping && c.name == path && c.settled == Settlement(r)
      ensures var t, script := old(kernel.clock), kernel.script;
              Collects(script(t).reaction, script(t + 1).reaction, script(t + 2).reaction, writes, r)
    {
      var blobs := ReadBlobs(id, path);
      if blobs.Err? {
        r := blobs;
      } else {
        r := Compare(id, path, blobs.value.0, blobs.value.1, writes);
      }
    }

    /** Reads the generation and compares it with the writes made. */
    method Compare(id: nat, path: string, out: seq<byte>, aux: seq<byte>, writes: u64)
      returns (r: Result<(seq<byte>, seq<byte>)>)
      requires kernel.Valid() && id in kernel.s.calls
      requires var c := kernel.s.calls[id];
               && c.task.RunTask? && c.pc == ReadingGeneration && c.name == path
               && c.writes == writes && c.out.bytes == out && c.aux.bytes == aux
      modifies kernel
      ensures kernel.Valid() && Kept(old(kernel.s), kernel.s) && id in kernel.s.calls
      ensures SameIdentity(old(kernel.s.calls[id]), kernel.s.calls[id])
      ensures kernel.s.calls[id].pc == Dropping && kernel.s.calls[id].settled == Settlement(r)
      ensures Judges(kernel.script(old(kernel.clock)).reaction, out, aux, writes, r)
    {
      ghost var reaction := kernel.script(kernel.clock).reaction;
      var text := kernel.ReadGeneration(id, path);
      JudgedAsPrinted(reaction, out, aux, writes, text);
      r := Judged(out, aux, writes, text);
    }

    /** `outblob` has to be there; an `auxblob` that cannot be read is an empty one. */
    method ReadBlobs(id: nat, path: string) returns (r: Result<(seq<byte>, seq<byte>)>)
      requires kernel.Valid() && id in kernel.s.calls
      requires var c := kernel.s.calls[id];
               c.task.RunTask? && c.pc == ReadingOut && c.name == path
      modifies kernel
      ensures kernel.Valid() && Kept(old(kernel.s), kernel.s) && id in kernel.s.calls
      ensures var before, c := old(kernel.s.calls[id]), kernel.s.calls[id];
              && c.task == before.task && c.name == path && c.writes == before.writes
              && match r
                 case Ok((out, aux)) => c.pc == ReadingGeneration && c.out.bytes == out && c.aux.bytes == aux
                 case Err(e) => c.pc == Dropping && c.settled == Err(e)
      ensures var t := old(kernel.clock);
              r == BlobsFrom(kernel.script(t).reaction, kernel.script(t + 1).reaction)
      ensures r.Ok? ==> kernel.clock == old(kernel.clock) + 2
    {
      var out := kernel.ReadOut(id, path);
      if out.Err? {
        r := Err(out.error);
      } else {
        var aux := kernel.ReadAux(id, path);
        r := Ok((out.value, if aux.Ok? then aux.value else []));
      }
    }

    /** `run`: whichever way the body ends, the entry is dropped. */
    method Run(request: ReportRequest) returns (r: Result<(seq<byte>, seq<byte>)>, ghost call: nat)
      requires kernel.Valid()
      modifies kernel
      ensures kernel.Valid() && Kept(old(kernel.s), kernel.s)
      ensures EndedWith(old(kernel.s), kernel.s, call, RunTask(request), Settlement(r))
    {
      var created, id := CreateEntry(RunTask(request));
      call := id;
      if created.Err? {
        r := Err(created.error);
        return;
      }
      r := Transact(request, id, created.value);
      kernel.RemoveDir(id, created.value);
    }

    /** Reads one text attribute through an entry of its own; `provider` and
        `privlevel_floor` do this. */
    method ReadAttribute() returns (r: Result<string>, ghost call: nat)
      requires kernel.Valid()
      modifies kernel
      ensures kernel.Valid() && Kept(old(kernel.s), kernel.s)
      ensures EndedWith(old(kernel.s), kernel.s, call, TextTask, TextSettlement(r))
    {
      var created, id := CreateEntry(TextTask);
      call := id;
      if created.Err? {
        r := Err(created.error);
        return;
      }
      r := kernel.ReadText(id, created.value);
      kernel.RemoveDir(id, created.value);
    }

    /** `provider`: the trimmed text the kernel gave. */
    method Provider() returns (r: Result<string>, ghost text: Result<string>, ghost call: nat)
      requires kernel.Valid()
      modifies kernel
      ensures kernel.Valid() && Kept(old(kernel.s), kernel.s)
      ensures EndedWith(old(kernel.s), kernel.s, call, TextTask, TextSettlement(text))
      ensures r == match text case Ok(t) => Ok(Trim(t)) case Err(e) => Err(e)
    {
      var raw;
      raw, call := ReadAttribute();
      text := raw;
      r := match raw case Ok(t) => Ok(Trim(t)) case Err(e) => Err(e);
    }

    method GetReport(request: ReportRequest)
      returns (r: Result<AttestationReport>, ghost call: nat, ghost blobs: Result<(seq<byte>, seq<byte>)>)
      requires kernel.Valid()
      modifies kernel
      ensures kernel.Valid() && Kept(old(kernel.s), kernel.s)
      ensures EndedWith(old(kernel.s), kernel.s, call, RunTask(request), Settlement(blobs))
      ensures r == ReportFrom(request, blobs)
    {
      var run;
      run, call := Run(request);
      blobs := run;
      if run.Err? {
        r := Err(run.error);
        return;
      }
      var report := ParseReport(run.value.0);
      if report.Err? {
        r := report;
        return;
      }
      var answers := VerifyAnswers(request, report.value);
      if answers.Err? {
        r := Err(answers.error);
        return;
      }
      r := report;
    }

    method GetExtendedReport(request: ReportRequest)
      returns (r: Result<ExtendedReport>, ghost call: nat, ghost blobs: Result<(seq<byte>, seq<byte>)>)
      requires kernel.Valid()
      modifies kernel
      ensures kernel.Valid() && Kept(old(kernel.s), kernel.s)
      ensures EndedWith(old(kernel.s), kernel.s, call, RunTask(request), Settlement(blobs))
      ensures r == ExtendedFrom(request, blobs)
    {
      var run;
      run, call := Run(request);
      blobs := run;
      if run.Err? {
        r := Err(run.error);
        return;
      }
      var report := ParseReport(run.value.0);
      if report.Err? {
        r := Err(report.error);
        return;
      }
      var answers := VerifyAnswers(request, report.value);
      if answers.Err? {
        r := Err(answers.error);
        return;
      }
      var table := ParseTable(run.value.1);
      if table.Err? {
        r := Err(table.error);
        return;
      }
      r := Ok(Extended(report.value, table.value));
    }
  }

  /** A run gives a report exactly when its blobs begin with one that answers the request, and
      a chain with it exactly when the auxiliary blob decodes; the report is looked at first. */
  lemma BlobsAreDecided(request: ReportRequest, out: seq<byte>, aux: seq<byte>, extended: ExtendedReport)
    ensures var blobs := Ok((out, aux));
            && ReportFrom(request, blobs) == Checked(request, out)
            && (ReportFrom(request, blobs) == Ok(extended.report) <==>
                  Answers(request, extended.report) && extended.report.raw <= out)
            && (ExtendedFrom(request, blobs) == Ok(extended) <==>
                  && Answers(request, extended.report) && extended.report.raw <= out
                  && Decode(aux) == Ok(extended.certificates))
            && (Checked(request, out).Err? ==> ExtendedFrom(request, blobs) == Err(Checked(request, out).error))
            && (Checked(request, out).Ok? && Decode(aux).Err? ==>
                  ExtendedFrom(request, blobs) == Err(Decode(aux).error))
    ensures forall e :: ReportFrom(request, Err(e)) == Err(e) && ExtendedFrom(request, Err(e)) == Err(e)
  {
    CheckedExactly(request, out, extended.report);
  }

  /** What a caller of this transport may rely on, whatever the schedule was: a report it gets
      answers the request, and the bytes it came in were produced from the request's own
      attributes; it fails with `Raced` only if its entry was written to by somebody else or
      the kernel printed no generation; and it never fails for want of a backend. */
  lemma ReportsAreOwnAnswers(s: World, call: nat, request: ReportRequest, blobs: Result<(seq<byte>, seq<byte>)>)
    requires Inv(s) && Ended(s, call, request) && s.calls[call].settled == Settlement(blobs)
    ensures ReportFrom(request, blobs).Ok? ==>
              var report := ReportFrom(request, blobs).value;
              && Answers(request, report)
              && report.raw <= s.calls[call].out.bytes
              && s.calls[call].out.source == Intended(request)
    ensures ExtendedFrom(request, blobs).Ok? ==>
              var extended := ExtendedFrom(request, blobs).value;
              && ReportFrom(request, blobs) == Ok(extended.report)
              && Decode(s.calls[call].aux.bytes) == Ok(extended.certificates)
              && s.calls[call].aux.source == Intended(request)
    ensures ExtendedFrom(request, blobs) == Err(Raced) || ReportFrom(request, blobs) == Err(Raced) ==>
              var c := s.calls[call]; c.seen.Some? && (c.seen.value > 0 || c.garbled)
    ensures ReportFrom(request, blobs) != Err(NoBackend) && ExtendedFrom(request, blobs) != Err(NoBackend)
  {
    RaceSafetyAt(s, call, request);
    if blobs.Ok? {
      var report := ReportFrom(request, blobs);
      if report.Ok? {
        CheckedExactly(request, blobs.value.0, report.value);
      } else {
        CheckedErrorsAreFinal(request, blobs.value.0);
      }
      DecodeErrorsAreParse(blobs.value.1);
    }
  }

  /** `ConfigFs::open_at`: attaches exactly when the root is a directory and an entry in it
      names the SEV-SNP provider, and says otherwise which of the two failed. */
  method OpenAt(kernel: Kernel, isDir: bool) returns (r: Result<ConfigFs>, ghost text: Result<string>, ghost call: nat)
    requires kernel.Valid()
    modifies kernel
    ensures kernel.Valid() && Kept(old(kernel.s), kernel.s)
    ensures r.Ok? <==> isDir && text.Ok? && Trim(text.value) == "sev_guest"
    ensures r.Ok? ==> r.value.kernel == kernel
    ensures !isDir ==> r == Err(NoBackend) && kernel.s == old(kernel.s)
    ensures isDir && text.Err? ==> r == Err(text.error)
    ensures isDir && text.Ok? && Trim(text.value) != "sev_guest" ==> r == Err(WrongProvider(Trim(text.value)))
    ensures isDir ==> EndedWith(old(kernel.s), kernel.s, call, TextTask, TextSettlement(text))
  {
    text, call := Ok(""), 0;
    if !isDir {
      r := Err(NoBackend);
      return;
    }
    var backend := new ConfigFs(kernel);
    var provider;
    provider, text, call := backend.Provider();
    if provider.Err? {
      r := Err(provider.error);
    } else if provider.value != PROVIDER {
      r := Err(WrongProvider(provider.value));
    } else {
      r := Ok(backend);
    }
  }
}
