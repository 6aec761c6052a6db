/** What every schedule of the configfs-TSM state machine keeps: race safety of each call and
    ownership of each directory. */
module TsmRuns {
  import opened Bytes
  import opened Errors
  import opened Decimal
  import opened Request
  import opened Tsm

  // ----- The invariant of the whole system -----

  predicate CallAt(s: World, id: nat) {
    && id in s.calls
    && id < s.begun
    && s.calls[id].id == id
    && CallInv(s.calls[id], Lookup(s.dirs, s.calls[id].name))
    && (s.calls[id].pc != Naming ==>
          && s.calls[id].ticket < s.counter
          && s.calls[id].name == EntryName(s.pid, s.calls[id].ticket % WRAP))
  }

  ghost predicate CallsInv(s: World) {
    forall id :: id in s.calls ==> CallAt(s, id)
  }

  predicate Named(s: World, id: nat) {
    id in s.calls && s.calls[id].pc != Naming
  }

  ghost predicate TicketsInv(s: World) {
    forall i, j :: Named(s, i) && Named(s, j) && i != j ==> s.calls[i].ticket != s.calls[j].ticket
  }

  /** An owned directory belongs to the call of that name, which either still holds it or
      ended with its removal refused. */
  predicate DirAt(s: World, name: string) {
    && name in s.dirs
    && (s.dirs[name].owner.OwnedBy? ==>
          var id := s.dirs[name].owner.id;
          && id in s.calls
          && s.calls[id].name == name
          && (Holding(s.calls[id]) || (s.calls[id].pc == Done && s.calls[id].leaked)))
  }

  ghost predicate DirsInv(s: World) {
    forall name :: name in s.dirs ==> DirAt(s, name)
  }

  ghost predicate Inv(s: World) {
    CallsInv(s) && TicketsInv(s) && DirsInv(s)
  }

  // ----- Every step keeps it -----

  lemma IdleCallIgnoresDirectory(c: Call, d: Option<Dir>, d': Option<Dir>)
    requires !Holding(c) && CallInv(c, d)
    ensures CallInv(c, d')
  {
  }

  /** Another call's directory is out of reach of an operation. */
  lemma ActSparesOthers(s: World, id: nat, r: Reaction, other: nat)
    requires Inv(s) && Enabled(s, Act(id, r)) && other in s.calls && other != id
    ensures CallAt(Next(s, Act(id, r)), other)
  {
    var c, o := s.calls[id], s.calls[other];
    assert CallAt(s, id) && CallAt(s, other);
    OperateFootprint(c, Lookup(s.dirs, c.name), r);
    if Holding(o) {
      if c.name == o.name {
        assert !Holding(c);
      }
    } else {
      var s' := Next(s, Act(id, r));
      IdleCallIgnoresDirectory(o, Lookup(s.dirs, o.name), Lookup(s'.dirs, o.name));
    }
  }

  lemma ActKeepsCalls(s: World, id: nat, r: Reaction)
    requires Inv(s) && Enabled(s, Act(id, r))
    ensures CallsInv(Next(s, Act(id, r)))
  {
    var s' := Next(s, Act(id, r));
    var c := s.calls[id];
    assert CallAt(s, id);
    OperateKeeps(c, Lookup(s.dirs, c.name), r);
    OperateFootprint(c, Lookup(s.dirs, c.name), r);
    assert CallAt(s', id);
    forall other | other in s'.calls
      ensures CallAt(s', other)
    {
      if other != id {
        ActSparesOthers(s, id, r, other);
      }
    }
  }

  lemma ActKeepsTickets(s: World, id: nat, r: Reaction)
    requires Inv(s) && Enabled(s, Act(id, r))
    ensures TicketsInv(Next(s, Act(id, r)))
  {
    var s' := Next(s, Act(id, r));
    assert CallAt(s, id);
    OperateFootprint(s.calls[id], Lookup(s.dirs, s.calls[id].name), r);
    forall i, j | Named(s', i) && Named(s', j) && i != j
      ensures s'.calls[i].ticket != s'.calls[j].ticket
    {
      assert Named(s, i) && Named(s, j);
    }
  }

  lemma ActKeepsDirs(s: World, id: nat, r: Reaction)
    requires Inv(s) && Enabled(s, Act(id, r))
    ensures DirsInv(Next(s, Act(id, r)))
  {
    var s' := Next(s, Act(id, r));
    var c := s.calls[id];
    assert CallAt(s, id);
    OperateFootprint(c, Lookup(s.dirs, c.name), r);
    forall name | name in s'.dirs
      ensures DirAt(s', name)
    {
      if name in s.dirs {
        assert DirAt(s, name);
      }
    }
  }

  lemma ActKeeps(s: World, id: nat, r: Reaction)
    requires Inv(s) && Enabled(s, Act(id, r))
    ensures Inv(Next(s, Act(id, r)))
  {
    ActKeepsCalls(s, id, r);
    ActKeepsTickets(s, id, r);
    ActKeepsDirs(s, id, r);
  }

  lemma BeginKeeps(s: World, task: Task)
    requires Inv(s)
    ensures Inv(Next(s, Begin(task)))
  {
    var s' := Next(s, Begin(task));
    forall id | id in s'.calls
      ensures CallAt(s', id)
    {
      assert id != s.begun ==> CallAt(s, id);
    }
    forall name | name in s'.dirs
      ensures DirAt(s', name)
    {
      assert DirAt(s, name);
      assert s.begun in s.calls ==> CallAt(s, s.begun);
    }
    forall i, j | Named(s', i) && Named(s', j) && i != j
      ensures s'.calls[i].ticket != s'.calls[j].ticket
    {
      assert Named(s, i) && Named(s, j);
    }
  }

  lemma TakeNameKeeps(s: World, id: nat)
    requires Inv(s) && Enabled(s, TakeName(id))
    ensures Inv(Next(s, TakeName(id)))
  {
    var s' := Next(s, TakeName(id));
    assert CallAt(s, id);
    forall other | other in s'.calls
      ensures CallAt(s', other)
    {
      assert CallAt(s, other);
    }
    forall name | name in s'.dirs
      ensures DirAt(s', name)
    {
      assert DirAt(s, name);
    }
    forall i, j | Named(s', i) && Named(s', j) && i != j
      ensures s'.calls[i].ticket != s'.calls[j].ticket
    {
      assert i != id ==> Named(s, i) && CallAt(s, i);
      assert j != id ==> Named(s, j) && CallAt(s, j);
    }
  }

  lemma ForeignWriteKeeps(s: World, name: string, attrs: Attrs)
    requires Inv(s) && name in s.dirs
    ensures Inv(Next(s, ForeignWrite(name, attrs)))
  {
    var s' := Next(s, ForeignWrite(name, attrs));
    forall id | id in s'.calls
      ensures CallAt(s', id)
    {
      assert CallAt(s, id);
      if s.calls[id].name == name {
        ForeignKeeps(s.calls[id], s.dirs[name], attrs);
      }
    }
    forall other | other in s'.dirs
      ensures DirAt(s', other)
    {
      assert DirAt(s, other);
    }
    assert forall i :: Named(s', i) ==> Named(s, i);
  }

  lemma ForeignChangeKeeps(s: World, step: Step)
    requires Inv(s) && (step.ForeignMake? || step.ForeignRemove?) && Enabled(s, step)
    ensures Inv(Next(s, step))
  {
    var s' := Next(s, step);
    forall id | id in s'.calls
      ensures CallAt(s', id)
    {
      assert CallAt(s, id);
      var c := s.calls[id];
      if !Holding(c) {
        IdleCallIgnoresDirectory(c, Lookup(s.dirs, c.name), Lookup(s'.dirs, c.name));
      }
    }
    forall other | other in s'.dirs
      ensures DirAt(s', other)
    {
      assert other in s.dirs ==> DirAt(s, other);
    }
    assert forall i :: Named(s', i) ==> Named(s, i);
  }

  lemma NextKeeps(s: World, step: Step)
    requires Inv(s) && Enabled(s, step)
    ensures Inv(Next(s, step))
  {
    match step
    case Begin(task) => BeginKeeps(s, task);
    case TakeName(id) => TakeNameKeeps(s, id);
    case Act(id, r) => ActKeeps(s, id, r);
    case ForeignWrite(name, attrs) => ForeignWriteKeeps(s, name, attrs);
    case ForeignMake(_) => ForeignChangeKeeps(s, step);
    case ForeignRemove(_) => ForeignChangeKeeps(s, step);
  }

  lemma {:induction false} PlayKeeps(s: World, steps: seq<Step>)
    requires Inv(s)
    ensures Inv(Play(s, steps))
    decreases steps
  {
    if steps != [] {
      if Enabled(s, steps[0]) {
        NextKeeps(s, steps[0]);
        PlayKeeps(Next(s, steps[0]), steps[1..]);
      } else {
        PlayKeeps(s, steps[1..]);
      }
    }
  }

  /** Every reachable state, under every schedule of calls and foreign processes. */
  lemma EverySchedule(pid: nat, steps: seq<Step>)
    ensures Inv(Play(Init(pid), steps))
  {
    PlayKeeps(Init(pid), steps);
  }

  lemma {:induction false} PlayConcat(s: World, a: seq<Step>, b: seq<Step>)
    ensures Play(s, a + b) == Play(Play(s, a), b)
    decreases a
  {
    if a == [] {
      assert a + b == b;
    } else {
      assert (a + b)[0] == a[0] && (a + b)[1..] == a[1..] + b;
      PlayConcat(if Enabled(s, a[0]) then Next(s, a[0]) else s, a[1..], b);
    }
  }

  // ----- Race safety -----

  /** The outcome of a `run` that has ended. */
  predicate Ended(s: World, id: nat, request: ReportRequest) {
    id in s.calls && s.calls[id].pc == Done && s.calls[id].task == RunTask(request)
  }

  /** Race safety of one call.  If it returned blobs, then no foreign write had hit its entry
      when the generation was read; the report was produced from exactly the data and level of
      the request (the default level when it named none), and so was the auxiliary blob, which
      otherwise is empty.  It returned `Raced` exactly when it got to compare generations and a
      foreign write had hit the entry or the kernel printed no number.  Any other error is an
      I/O error. */
  predicate RaceSafe(c: Call, request: ReportRequest) {
    && (c.settled.Ok? ==>
          && c.seen == Some(0)
          && c.settled.value == Blobs(c.out.bytes, c.aux.bytes)
          && c.out.source == Attrs(request.data, LevelText(request))
          && c.aux.source == Attrs(request.data, LevelText(request)))
    && (c.settled == Err(Raced) <==> c.seen.Some? && (c.seen.value > 0 || c.garbled))
    && (c.settled.Err? && c.settled != Err(Raced) ==> c.seen == None && c.settled.error.Io?)
  }

  lemma RaceSafetyAt(s: World, id: nat, request: ReportRequest)
    requires Inv(s) && Ended(s, id, request)
    ensures RaceSafe(s.calls[id], request)
  {
    assert CallAt(s, id);
  }

  /** Under every schedule, every `run` that has ended is race safe. */
  lemma RaceSafety(pid: nat, steps: seq<Step>, id: nat, request: ReportRequest)
    requires Ended(Play(Init(pid), steps), id, request)
    ensures RaceSafe(Play(Init(pid), steps).calls[id], request)
  {
    EverySchedule(pid, steps);
    RaceSafetyAt(Play(Init(pid), steps), id, request);
  }

  /** The attributes a blob was produced from identify the request that meant them. */
  lemma AttributesIdentifyTheRequest(a: ReportRequest, b: ReportRequest)
    requires Intended(a) == Intended(b)
    ensures a == b
  {
    if a.vmpl.Some? && b.vmpl.Some? {
      RenderInjective(a.vmpl.value, b.vmpl.value);
    }
  }

  /** Call `id` is beyond saving: somebody else has written to its entry and it has not read
      the generation yet, or it has settled without success. */
  predicate Doomed(s: World, id: nat) {
    && id in s.calls && s.calls[id].task.RunTask?
    && var c := s.calls[id];
      if c.pc == Dropping || c.pc == Done then c.settled.Err?
      else Holding(c) && c.name in s.dirs && s.dirs[c.name].foreignWrites > 0
  }

  lemma OperateDoomed(c: Call, d: Dir, r: Reaction)
    requires Holding(c) && c.pc != Dropping && c.task.RunTask? && CallInv(c, Some(d)) && d.foreignWrites > 0
    ensures var (c', d') := OperateInside(c, d, r);
            && (c'.pc != Dropping ==> d'.Some? && d'.value.foreignWrites > 0)
            && (c'.pc == Dropping ==> c'.settled.Err?)
  {
    if c.pc == ReadingGeneration && !r.Fails? {
      GenerationReading(d, r);
    }
  }

  lemma ActDooms(s: World, id: nat, r: Reaction)
    requires Inv(s) && Enabled(s, Act(id, r)) && Doomed(s, id)
    ensures Doomed(Next(s, Act(id, r)), id)
  {
    var c := s.calls[id];
    assert CallAt(s, id);
    if c.pc != Dropping {
      OperateDoomed(c, s.dirs[c.name], r);
      InsideKeeps(c, s.dirs[c.name], r);
      InsideFixes(c, s.dirs[c.name], r);
    }
  }

  /** No step of anybody rescues a doomed call. */
  lemma DoomStays(s: World, step: Step, id: nat)
    requires Inv(s) && Enabled(s, step) && Doomed(s, id)
    ensures Doomed(Next(s, step), id)
  {
    assert CallAt(s, id);
    if step.Act? {
      if step.id == id {
        ActDooms(s, id, step.reaction);
      } else {
        var c, o := s.calls[step.id], s.calls[id];
        assert CallAt(s, step.id);
        OperateFootprint(c, Lookup(s.dirs, c.name), step.reaction);
        if Holding(o) && c.name == o.name {
          assert !Holding(c);
        }
      }
    }
  }

  lemma {:induction false} DoomLasts(s: World, steps: seq<Step>, id: nat)
    requires Inv(s) && Doomed(s, id)
    ensures Doomed(Play(s, steps), id)
    decreases steps
  {
    if steps != [] {
      if Enabled(s, steps[0]) {
        DoomStays(s, steps[0], id);
        NextKeeps(s, steps[0]);
        DoomLasts(Next(s, steps[0]), steps[1..], id);
      } else {
        DoomLasts(s, steps[1..], id);
      }
    }
  }

  /** A foreign write at any moment between the creation of the entry and the generation read
      keeps `run` from ever returning a report, however the schedule goes on. */
  lemma ForeignWriteIsDetected(pid: nat, before: seq<Step>, id: nat, attrs: Attrs, after: seq<Step>)
    requires var s := Play(Init(pid), before);
             id in s.calls && s.calls[id].task.RunTask? && Holding(s.calls[id]) && s.calls[id].pc != Dropping
    ensures var s := Play(Init(pid), before);
            var end := Play(Init(pid), before + [ForeignWrite(s.calls[id].name, attrs)] + after);
            && id in end.calls
            && (end.calls[id].pc == Done ==> end.calls[id].settled.Err?)
  {
    var s := Play(Init(pid), before);
    var write := ForeignWrite(s.calls[id].name, attrs);
    EverySchedule(pid, before);
    assert CallAt(s, id);
    NextKeeps(s, write);
    PlayConcat(Init(pid), before, [write]);
    assert Play(s, [write]) == Next(s, write);
    PlayConcat(Init(pid), before + [write], after);
    assert Doomed(Next(s, write), id);
    DoomLasts(Next(s, write), after, id);
  }

  /** The kernel does not print rubbish for `generation`. */
  predicate Legible(r: Reaction) {
    r.Works? ==> ParseU64(Trim(r.text)).Some?
  }

  /** A step that leaves the call of this name in peace. */
  predicate Quiet(step: Step, id: nat, name: string) {
    && (step.ForeignWrite? ==> step.name != name)
    && (step.Act? && step.id == id ==> Legible(step.reaction))
  }

  /** Nothing has happened to call `id` if `name` is the name it works under. */
  predicate Untroubled(s: World, id: nat, name: string) {
    Named(s, id) && s.calls[id].name == name && s.calls[id].task.RunTask? ==>
      var c := s.calls[id];
      && !c.garbled && (c.seen.Some? ==> c.seen.value == 0)
      && (Holding(c) ==> name in s.dirs && s.dirs[name].foreignWrites == 0)
  }

  lemma OperateUntroubled(c: Call, d: Option<Dir>, r: Reaction)
    requires !c.pc.Naming? && !c.pc.Done? && CallInv(c, d) && Legible(r) && c.task.RunTask?
    requires !c.garbled && (c.seen.Some? ==> c.seen.value == 0)
    requires Holding(c) ==> d.value.foreignWrites == 0
    ensures var (c', d') := Operate(c, d, r);
            && !c'.garbled && (c'.seen.Some? ==> c'.seen.value == 0)
            && (Holding(c') ==> d'.Some? && d'.value.foreignWrites == 0)
  {
    if c.pc == ReadingGeneration {
      ParseOfPrinted(d.value.generation);
    }
  }

  lemma ActUntroubled(s: World, id: nat, r: Reaction, name: string)
    requires Inv(s) && Enabled(s, Act(id, r)) && Legible(r) && Untroubled(s, id, name)
    ensures Untroubled(Next(s, Act(id, r)), id, name)
  {
    var c := s.calls[id];
    assert CallAt(s, id);
    OperateFootprint(c, Lookup(s.dirs, c.name), r);
    if c.name == name && c.task.RunTask? {
      OperateUntroubled(c, Lookup(s.dirs, c.name), r);
    }
  }

  lemma QuietStep(s: World, step: Step, id: nat, name: string)
    requires Inv(s) && Enabled(s, step) && Quiet(step, id, name) && Untroubled(s, id, name)
    ensures Untroubled(Next(s, step), id, name)
  {
    assert Named(s, id) ==> CallAt(s, id);
    match step
    case Begin(_) => assert s.begun in s.calls ==> CallAt(s, s.begun);
    case TakeName(i) => assert CallAt(s, i);
    case Act(i, r) =>
      assert CallAt(s, i);
      if i == id {
        ActUntroubled(s, id, r, name);
      } else {
        OperateFootprint(s.calls[i], Lookup(s.dirs, s.calls[i].name), r);
      }
    case ForeignWrite(_, _) =>
    case ForeignMake(_) =>
    case ForeignRemove(_) =>
  }

  lemma {:induction false} QuietSchedule(s: World, steps: seq<Step>, id: nat, name: string)
    requires Inv(s) && Untroubled(s, id, name)
    requires forall k :: 0 <= k < |steps| ==> Quiet(steps[k], id, name)
    ensures Untroubled(Play(s, steps), id, name)
    decreases steps
  {
    if steps != [] {
      assert Quiet(steps[0], id, name);
      if Enabled(s, steps[0]) {
        QuietStep(s, steps[0], id, name);
        NextKeeps(s, steps[0]);
        QuietSchedule(Next(s, steps[0]), steps[1..], id, name);
      } else {
        QuietSchedule(s, steps[1..], id, name);
      }
    }
  }

  lemma UntroubledOutcome(s: World, id: nat, request: ReportRequest)
    requires Ended(s, id, request) && CallAt(s, id) && Untroubled(s, id, s.calls[id].name)
    ensures var c := s.calls[id];
            if c.seen.Some? then c.settled.Ok? else c.settled.Err? && c.settled.error.Io?
  {
  }

  /** No false alarms: if nobody else writes to the entry and the kernel prints its generation,
      `run` ends with the blobs or with an I/O error, never with `Raced`, whatever the other
      calls and processes do meanwhile. */
  lemma QuietRunsAreNeverRaced(pid: nat, steps: seq<Step>, id: nat, request: ReportRequest)
    requires Ended(Play(Init(pid), steps), id, request)
    requires forall k :: 0 <= k < |steps| ==> Quiet(steps[k], id, Play(Init(pid), steps).calls[id].name)
    ensures var c := Play(Init(pid), steps).calls[id];
            if c.seen.Some? then c.settled.Ok? else c.settled.Err? && c.settled.error.Io?
  {
    var s := Play(Init(pid), steps);
    EverySchedule(pid, steps);
    QuietSchedule(Init(pid), steps, id, s.calls[id].name);
    UntroubledOutcome(s, id, request);
  }

  // ----- A quiet run can succeed -----

  /** The operations of call `id` alone, with these reactions. */
  function Acts(id: nat, reactions: seq<Reaction>): (steps: seq<Step>)
    ensures |steps| == |reactions|
    decreases reactions
  {
    if reactions == [] then [] else [Act(id, reactions[0])] + Acts(id, reactions[1..])
  }

  /** Where those operations take a call that finds d under its name. */
  function Alone(c: Call, d: Option<Dir>, reactions: seq<Reaction>): Call
    decreases reactions
  {
    if reactions == [] || c.pc.Naming? || c.pc.Done? then c
    else
      var (c', d') := Operate(c, d, reactions[0]);
      Alone(c', d', reactions[1..])
  }

  lemma {:induction false} ActsAreAlone(s: World, id: nat, reactions: seq<Reaction>)
    requires Inv(s) && Named(s, id)
    ensures var s' := Play(s, Acts(id, reactions));
            id in s'.calls && s'.calls[id] == Alone(s.calls[id], Lookup(s.dirs, s.calls[id].name), reactions)
    decreases reactions
  {
    if reactions != [] {
      var step, rest := Act(id, reactions[0]), Acts(id, reactions[1..]);
      assert Acts(id, reactions)[0] == step && Acts(id, reactions)[1..] == rest;
      var c := s.calls[id];
      if c.pc == Done {
        ActsAreAlone(s, id, reactions[1..]);
      } else {
        assert CallAt(s, id);
        OperateFootprint(c, Lookup(s.dirs, c.name), reactions[0]);
        NextKeeps(s, step);
        ActsAreAlone(Next(s, step), id, reactions[1..]);
      }
    }
  }

  lemma AloneStep(c: Call, d: Option<Dir>, r: Reaction, rest: seq<Reaction>)
    requires !c.pc.Naming? && !c.pc.Done?
    ensures var (c', d') := Operate(c, d, r); Alone(c, d, [r] + rest) == Alone(c', d', rest)
  {
    assert ([r] + rest)[1..] == rest;
  }

  /** The kernel does what it is asked, and hands out these bytes where it is asked for some. */
  function Obliging(bytes: seq<byte>): Reaction {
    Works(bytes, Render(0) + "\n")
  }

  function Readings(out: seq<byte>, aux: seq<byte>): seq<Reaction> {
    [Obliging(out)] + ([Obliging(aux)] + ([Obliging([])] + ([Obliging([])] + [])))
  }

  function Reactions(request: ReportRequest, out: seq<byte>, aux: seq<byte>): seq<Reaction> {
    var writings := [Obliging([])] + Readings(out, aux);
    [Obliging([])] + (if request.vmpl.Some? then [Obliging([])] + writings else writings)
  }

  lemma ObligingIsLegible(bytes: seq<byte>)
    ensures Legible(Obliging(bytes))
  {
    ParseOfPrinted(0);
  }

  lemma ComparingAlone(c: Call, d: Dir)
    requires c.pc == ReadingGeneration && c.task.RunTask? && !c.leaked && c.writes == d.generation <= 2
    ensures var e := Alone(c, Some(d), [Obliging([])] + ([Obliging([])] + []));
            && e.pc == Done && !e.leaked && e.task == c.task
            && e.settled == Ok(Blobs(c.out.bytes, c.aux.bytes))
  {
    var r := Obliging([]);
    ObligingIsLegible([]);
    LegibleReading(d, r);
    ComparingAgrees(c, d, r);
    AloneStep(c, Some(d), r, [r] + []);
    var (c1, d1) := Operate(c, Some(d), r);
    AloneStep(c1, d1, r, []);
  }

  lemma LegibleReading(d: Dir, r: Reaction)
    requires !r.Fails? && Legible(r) && d.generation < WRAP
    ensures GenerationValue(GenerationText(d, r)) == d.generation
  {
    ParseOfPrinted(d.generation);
  }

  lemma ComparingAgrees(c: Call, d: Dir, r: Reaction)
    requires c.pc == ReadingGeneration && c.task.RunTask? && !r.Fails?
    requires GenerationValue(GenerationText(d, r)) == c.writes
    ensures var e := Operate(c, Some(d), r).0;
            && e.pc == Dropping && e.leaked == c.leaked && e.task == c.task
            && e.settled == Ok(Blobs(c.out.bytes, c.aux.bytes))
  {
  }

  lemma ReadingAlone(c: Call, d: Dir, out: seq<byte>, aux: seq<byte>)
    requires c.pc == ReadingOut && c.task.RunTask? && !c.leaked && c.writes == d.generation <= 2
    ensures var e := Alone(c, Some(d), Readings(out, aux));
            e.pc == Done && !e.leaked && e.task == c.task && e.settled == Ok(Blobs(out, aux))
  {
    var last := [Obliging([])] + ([Obliging([])] + []);
    AloneStep(c, Some(d), Obliging(out), [Obliging(aux)] + last);
    var (c1, d1) := Operate(c, Some(d), Obliging(out));
    AloneStep(c1, d1, Obliging(aux), last);
    var (c2, d2) := Operate(c1, d1, Obliging(aux));
    ComparingAlone(c2, d);
  }

  lemma WritingAlone(c: Call, d: Dir, out: seq<byte>, aux: seq<byte>)
    requires c.pc == WritingData && c.task.RunTask? && !c.leaked && c.writes == d.generation <= 1
    ensures var e := Alone(c, Some(d), [Obliging([])] + Readings(out, aux));
            e.pc == Done && !e.leaked && e.task == c.task && e.settled == Ok(Blobs(out, aux))
  {
    AloneStep(c, Some(d), Obliging([]), Readings(out, aux));
    var (c', d') := Operate(c, Some(d), Obliging([]));
    ReadingAlone(c', d'.value, out, aux);
  }

  lemma CallAlone(c: Call, request: ReportRequest, out: seq<byte>, aux: seq<byte>)
    requires c.pc == Making && c.task == RunTask(request) && !c.leaked && c.writes == 0
    ensures var e := Alone(c, None, Reactions(request, out, aux));
            e.pc == Done && !e.leaked && e.task == c.task && e.settled == Ok(Blobs(out, aux))
  {
    var r, writings := Obliging([]), [Obliging([])] + Readings(out, aux);
    var (c', d') := Operate(c, None, r);
    if request.vmpl.Some? {
      AloneStep(c, None, r, [r] + writings);
      AloneStep(c', d', r, writings);
      var (c2, d2) := Operate(c', d', r);
      WritingAlone(c2, d2.value, out, aux);
    } else {
      AloneStep(c, None, r, writings);
      WritingAlone(c', d'.value, out, aux);
    }
  }

  /** A new call with nobody else about. */
  function Undisturbed(id: nat, request: ReportRequest, out: seq<byte>, aux: seq<byte>): seq<Step> {
    [Begin(RunTask(request)), TakeName(id)] + Acts(id, Reactions(request, out, aux))
  }

  lemma {:induction false} ActsAreQuiet(id: nat, reactions: seq<Reaction>, name: string)
    requires AllLegible(reactions)
    ensures forall k :: 0 <= k < |reactions| ==> Quiet(Acts(id, reactions)[k], id, name)
    decreases reactions
  {
    if reactions != [] {
      ActsAreQuiet(id, reactions[1..], name);
      assert forall k :: 0 < k < |reactions| ==> Acts(id, reactions)[k] == Acts(id, reactions[1..])[k - 1];
    }
  }

  /** Success is always within reach: from every reachable state in which no foreigner sits on
      the next name, every request has a quiet schedule that ends with just the blobs the kernel
      produced and with the entry gone. */
  lemma QuietRunsCanSucceed(pid: nat, steps: seq<Step>, request: ReportRequest, out: seq<byte>, aux: seq<byte>)
    requires var s := Play(Init(pid), steps); EntryName(s.pid, s.counter % WRAP) !in s.dirs
    ensures var s := Play(Init(pid), steps);
            var id, name := s.begun, EntryName(s.pid, s.counter % WRAP);
            var quiet := Undisturbed(id, request, out, aux);
            var end := Play(Init(pid), steps + quiet);
            && (forall k :: 0 <= k < |quiet| ==> Quiet(quiet[k], id, name))
            && Ended(end, id, request) && end.calls[id].settled == Ok(Blobs(out, aux)) && !end.calls[id].leaked
  {
    var s := Play(Init(pid), steps);
    EverySchedule(pid, steps);
    PlayConcat(Init(pid), steps, Undisturbed(s.begun, request, out, aux));
    UndisturbedEnds(s, request, out, aux);
    UndisturbedIsQuiet(s.begun, request, out, aux, EntryName(s.pid, s.counter % WRAP));
  }

  lemma UndisturbedIsQuiet(id: nat, request: ReportRequest, out: seq<byte>, aux: seq<byte>, name: string)
    ensures var quiet := Undisturbed(id, request, out, aux);
            forall k :: 0 <= k < |quiet| ==> Quiet(quiet[k], id, name)
  {
    ReactionsAreLegible(request, out, aux);
    ActsAreQuiet(id, Reactions(request, out, aux), name);
  }

  predicate AllLegible(reactions: seq<Reaction>) {
    forall k :: 0 <= k < |reactions| ==> Legible(reactions[k])
  }

  lemma OneMoreIsLegible(bytes: seq<byte>, rest: seq<Reaction>)
    requires AllLegible(rest)
    ensures AllLegible([Obliging(bytes)] + rest)
  {
    ObligingIsLegible(bytes);
  }

  lemma ReactionsAreLegible(request: ReportRequest, out: seq<byte>, aux: seq<byte>)
    ensures AllLegible(Reactions(request, out, aux))
  {
    var yes := Obliging([]);
    OneMoreIsLegible([], []);
    OneMoreIsLegible([], [yes] + []);
    OneMoreIsLegible(aux, [yes] + ([yes] + []));
    OneMoreIsLegible(out, [Obliging(aux)] + ([yes] + ([yes] + [])));
    var writings := [yes] + Readings(out, aux);
    OneMoreIsLegible([], Readings(out, aux));
    OneMoreIsLegible([], writings);
    OneMoreIsLegible([], [yes] + writings);
  }

  lemma UndisturbedEnds(s: World, request: ReportRequest, out: seq<byte>, aux: seq<byte>)
    requires Inv(s) && EntryName(s.pid, s.counter % WRAP) !in s.dirs
    ensures var end := Play(s, Undisturbed(s.begun, request, out, aux));
            && Ended(end, s.begun, request) && !end.calls[s.begun].leaked
            && end.calls[s.begun].settled == Ok(Blobs(out, aux))
  {
    var id, acts := s.begun, Acts(s.begun, Reactions(request, out, aux));
    var s1 := Next(s, Begin(RunTask(request)));
    var s2 := Next(s1, TakeName(id));
    NextKeeps(s, Begin(RunTask(request)));
    NextKeeps(s1, TakeName(id));
    TwoStepsFirst(s, Begin(RunTask(request)), TakeName(id), acts);
    CallAlone(s2.calls[id], request, out, aux);
    ActsAreAlone(s2, id, Reactions(request, out, aux));
  }

  lemma TwoStepsFirst(s: World, a: Step, b: Step, rest: seq<Step>)
    requires Enabled(s, a) && Enabled(Next(s, a), b)
    ensures Play(s, [a, b] + rest) == Play(Next(Next(s, a), b), rest)
  {
    PlayConcat(s, [a, b], rest);
    assert [a, b][1..] == [b];
    assert Play(Next(s, a), [b]) == Next(Next(s, a), b);
  }

  // ----- Ownership -----

  /** Two calls that hold a directory never hold the same one. */
  lemma LiveEntriesAreDistinct(pid: nat, steps: seq<Step>, i: nat, j: nat)
    requires var s := Play(Init(pid), steps);
             i in s.calls && j in s.calls && i != j && Holding(s.calls[i]) && Holding(s.calls[j])
    ensures var s := Play(Init(pid), steps); s.calls[i].name != s.calls[j].name
  {
    EverySchedule(pid, steps);
    var s := Play(Init(pid), steps);
    assert CallAt(s, i) && CallAt(s, j);
  }

  /** A removal always targets a directory that the same call created. */
  lemma RemovalsAreOwn(pid: nat, steps: seq<Step>, id: nat)
    requires var s := Play(Init(pid), steps); id in s.calls && s.calls[id].pc == Dropping
    ensures var s := Play(Init(pid), steps);
            s.calls[id].name in s.dirs && s.dirs[s.calls[id].name].owner == OwnedBy(id)
  {
    EverySchedule(pid, steps);
    assert CallAt(Play(Init(pid), steps), id);
  }

  /** A call that has ended owns nothing, on every path, unless its removal was refused. */
  lemma EndedCallsOwnNothing(pid: nat, steps: seq<Step>, id: nat, name: string)
    requires var s := Play(Init(pid), steps);
             id in s.calls && s.calls[id].pc == Done && !s.calls[id].leaked && name in s.dirs
    ensures Play(Init(pid), steps).dirs[name].owner != OwnedBy(id)
  {
    EverySchedule(pid, steps);
    assert DirAt(Play(Init(pid), steps), name);
  }

  /** Until the counter wraps, two calls of the process never even try the same name, and a
      name found taken was taken by a foreign process. */
  lemma CreationsCollideOnlyWithForeigners(pid: nat, steps: seq<Step>, id: nat)
    requires var s := Play(Init(pid), steps);
             s.counter <= WRAP && id in s.calls && s.calls[id].pc == Making
    ensures var s := Play(Init(pid), steps);
            var name := s.calls[id].name;
            && (name in s.dirs ==> s.dirs[name].owner == Foreigner)
            && (forall other :: Named(s, other) && other != id ==> s.calls[other].name != name)
  {
    EverySchedule(pid, steps);
    var s := Play(Init(pid), steps);
    var name := s.calls[id].name;
    assert CallAt(s, id) && Named(s, id);
    forall other | Named(s, other) && other != id
      ensures s.calls[other].name != name
    {
      assert CallAt(s, other);
      if s.calls[other].name == name {
        EntryNameInjective(s.pid, s.calls[other].ticket % WRAP, s.pid, s.calls[id].ticket % WRAP);
      }
    }
    if name in s.dirs && s.dirs[name].owner.OwnedBy? {
      assert DirAt(s, name);
      assert Named(s, s.dirs[name].owner.id);
    }
  }
}
