/** Every step of the resolver keeps its invariants. */
module DnsInvariants {
  import opened Basics
  import opened DnsCache
  import opened DnsProtocol

  // ---------------------------------------------------------------------------------------------
  // Every step keeps the slot records exact

  /** A task that moves without changing its roles leaves every count as it was. */
  lemma CountKept(tasks: map<Pid, Task>, p: Pid, t: Task, role: Role)
    requires Plays(t, role) <==> p in tasks && Plays(tasks[p], role)
    ensures Count(tasks[p := t], role) == Count(tasks, role)
  {
    CountGoto(tasks, p, t, role);
  }

  /** Steps that move one task and leave the maps, the slot records and the flights alone. */
  predicate Quiet(s: State, step: Step)
    requires Enabled(s, step)
  {
    match step
    case Call(_, _, _) => true
    case DoFind(_) => true
    case Abandon(_) => true
    case DoRecheck(p, _, _) => !Starts(s, p)
    case WaitDone(_) => true
    case WaitCancelled(_) => true
    case TakeGlobal(_) => true
    case PopGlobal(_) => true
    case DoStamp(_) => true
    case _ => false
  }

  predicate SameFlight(tasks: map<Pid, Task>, p: Pid, t: Task) {
    && (p in tasks && Running(tasks[p]) ==> Running(t))
    && (Running(t) ==>
          && p in tasks && Running(tasks[p]) && t.flight == tasks[p].flight && t.query == tasks[p].query
          && (Registered(tasks[p]) <==> Registered(t)) && (Unstored(t) ==> Unstored(tasks[p])))
  }

  /** A quiet step also leaves the moved task with the slot and the flight it had. */
  lemma QuietStep(s: State, step: Step)
    requires Enabled(s, step) && Quiet(s, step)
    ensures var s' := Apply(s, step);
            && step.p in s'.tasks
            && s' == s.(tasks := s.tasks[step.p := s'.tasks[step.p]], global := s'.global)
            && SameSlot(s.tasks, step.p, s'.tasks[step.p])
            && SameFlight(s.tasks, step.p, s'.tasks[step.p])
  {
  }

  predicate SameSlot(tasks: map<Pid, Task>, p: Pid, t: Task) {
    && SlotOf(t) == (if p in tasks then SlotOf(tasks[p]) else None)
    && (SlotOf(t).Some? ==> ((t.Queue? || t.Leave?) <==> (tasks[p].Queue? || tasks[p].Leave?)))
  }

  lemma SlotsFrame(s: State, s': State, p: Pid, t: Task)
    requires SlotsInv(s) && s'.sh.slots == s.sh.slots && s'.sh.clients == s.sh.clients
    requires s'.tasks == s.tasks[p := t] && SameSlot(s.tasks, p, t)
    ensures SlotsInv(s')
  {
    forall slot | slot in s'.sh.slots
      ensures RecordInv(s', slot)
    {
      CountKept(s.tasks, p, t, User(slot));
      CountKept(s.tasks, p, t, Holder(slot));
      assert RecordInv(s, slot);
    }
  }

  /** Starting a flight hands the caller's slot to the goroutine that runs it. */
  lemma SlotsStart(s: State, p: Pid, f: FlightId, r: Pid)
    requires SlotsInv(s) && Enabled(s, DoRecheck(p, f, r)) && Starts(s, p)
    ensures SlotsInv(StartStep(s, p, f, r))
  {
    var s' := StartStep(s, p, f, r);
    forall slot | slot in s'.sh.slots
      ensures RecordInv(s', slot)
    {
      HandedOver(s, p, f, r, User(slot));
      HandedOver(s, p, f, r, Holder(slot));
      assert RecordInv(s, slot);
    }
  }

  lemma HandedOver(s: State, p: Pid, f: FlightId, r: Pid, role: Role)
    requires Enabled(s, DoRecheck(p, f, r)) && Starts(s, p) && !role.Upstream?
    ensures Count(StartStep(s, p, f, r).tasks, role) == Count(s.tasks, role)
  {
    var t := s.tasks[p];
    var runner := AwaitGlobal(t.query, f, t.held);
    CountGoto(s.tasks, r, runner, role);
    CountGoto(s.tasks[r := runner], p, Wait(t.query, f), role);
  }

  /** Nothing plays a role in a record that has not been allocated. */
  lemma NoPlayers(s: State, slot: SlotId)
    requires PointersInv(s) && slot !in s.sh.slots
    ensures Count(s.tasks, User(slot)) == 0 && Count(s.tasks, Holder(slot)) == 0
  {
    assert Players(s.tasks, User(slot)) == {};
    assert Players(s.tasks, Holder(slot)) == {};
  }

  lemma SlotsEnter(s: State, p: Pid, id: SlotId)
    requires SlotsInv(s) && Enabled(s, DoEnter(p, id))
    ensures SlotsInv(EnterStep(s, p, id))
  {
    var s' := EnterStep(s, p, id);
    forall slot | slot in s'.sh.slots
      ensures RecordInv(s', slot)
    {
      RecordEnter(s, p, id, slot);
    }
  }

  lemma RecordEnter(s: State, p: Pid, id: SlotId, slot: SlotId)
    requires SlotsInv(s) && Enabled(s, DoEnter(p, id)) && slot in EnterStep(s, p, id).sh.slots
    ensures RecordInv(EnterStep(s, p, id), slot)
  {
    var t := EnterStep(s, p, id).tasks[p];
    CountGoto(s.tasks, p, t, User(slot));
    CountKept(s.tasks, p, t, Holder(slot));
    if slot in s.sh.slots {
      assert RecordInv(s, slot);
    } else {
      NoPlayers(s, slot);
    }
  }

  lemma SlotsToken(s: State, s': State, p: Pid, sem: nat, t: Task)
    requires SlotsInv(s) && p in s.tasks && SlotOf(s.tasks[p]).Some? && SlotOf(t) == SlotOf(s.tasks[p])
    requires var slot := SlotOf(t).value;
             && slot in s.sh.slots && s' == Goto(SetSem(s, slot, sem), p, t) && sem <= MAX_PER_CLIENT
             && sem == s.sh.slots[slot].sem
                       - (if Plays(s.tasks[p], Holder(slot)) then 1 else 0)
                       + (if Plays(t, Holder(slot)) then 1 else 0)
    ensures SlotsInv(s')
  {
    forall slot | slot in s'.sh.slots
      ensures RecordInv(s', slot)
    {
      CountKept(s.tasks, p, t, User(slot));
      CountGoto(s.tasks, p, t, Holder(slot));
      assert RecordInv(s, slot);
    }
  }

  lemma SlotsTake(s: State, p: Pid)
    requires SlotsInv(s) && Enabled(s, TakeSlot(p))
    ensures SlotsInv(TakeSlotStep(s, p))
  {
    var s' := TakeSlotStep(s, p);
    SlotsToken(s, s', p, s.sh.slots[s.tasks[p].slot].sem + 1, s'.tasks[p]);
  }

  lemma SlotsPop(s: State, p: Pid)
    requires SlotsInv(s) && Enabled(s, DoPop(p))
    ensures SlotsInv(PopStep(s, p))
  {
    assert RecordInv(s, s.tasks[p].slot);
    var s' := PopStep(s, p);
    SlotsToken(s, s', p, s.sh.slots[s.tasks[p].slot].sem - 1, s'.tasks[p]);
  }

  /** The step moves `p` to `t`, with the slot it had. */
  predicate KeepsSlot(s: State, s': State, p: Pid, t: Task) {
    && s'.sh.slots == s.sh.slots && s'.sh.clients == s.sh.clients
    && s'.tasks == s.tasks[p := t] && SameSlot(s.tasks, p, t)
  }

  lemma ResultKeepsSlot(s: State, step: Step)
    requires Enabled(s, step) && (step.TimeOut? || step.Answer?)
    ensures step.p in Apply(s, step).tasks && KeepsSlot(s, Apply(s, step), step.p, Apply(s, step).tasks[step.p])
  {
  }

  lemma StoreKeepsSlot(s: State, step: Step)
    requires Enabled(s, step) && (step.DoInsert? || step.DoUnregister? || step.DoClose?)
    ensures step.p in Apply(s, step).tasks && KeepsSlot(s, Apply(s, step), step.p, Apply(s, step).tasks[step.p])
  {
  }

  lemma RecordLeave(s: State, p: Pid, slot: SlotId)
    requires SlotsInv(s) && Enabled(s, DoLeave(p)) && slot in s.sh.slots
    ensures RecordInv(LeaveStep(s, p), slot)
  {
    var t := LeaveStep(s, p).tasks[p];
    CountGoto(s.tasks, p, t, User(slot));
    CountKept(s.tasks, p, t, Holder(slot));
    MappedAfterLeave(s, p, slot);
    assert RecordInv(s, slot);
  }

  /** A record leaves the map with its last user, and no other record does. */
  lemma MappedAfterLeave(s: State, p: Pid, slot: SlotId)
    requires SlotsInv(s) && Enabled(s, DoLeave(p)) && slot in s.sh.slots
    ensures var sh := LeaveIn(s.sh, s.tasks[p].slot);
            && slot in sh.slots && sh.slots[slot].client == s.sh.slots[slot].client
            && (sh.slots[slot].users > 0 <==> sh.slots[slot].client in sh.clients && sh.clients[sh.slots[slot].client] == slot)
  {
    assert RecordInv(s, slot) && RecordInv(s, s.tasks[p].slot);
  }

  lemma SlotsLeave(s: State, p: Pid)
    requires SlotsInv(s) && Enabled(s, DoLeave(p))
    ensures SlotsInv(LeaveStep(s, p))
  {
    var s' := LeaveStep(s, p);
    assert s'.sh.slots.Keys == s.sh.slots.Keys;
    forall slot | slot in s'.sh.slots
      ensures RecordInv(s', slot)
    {
      RecordLeave(s, p, slot);
    }
    PointersLeave(s, p);
  }

  lemma PointersLeave(s: State, p: Pid)
    requires PointersInv(s) && Enabled(s, DoLeave(p))
    ensures PointersInv(LeaveStep(s, p))
  {
  }

  lemma SlotsStep(s: State, step: Step)
    requires SlotsInv(s) && Enabled(s, step)
    ensures SlotsInv(Apply(s, step))
  {
    var s' := Apply(s, step);
    if Quiet(s, step) {
      QuietStep(s, step);
      SlotsFrame(s, s', step.p, s'.tasks[step.p]);
    } else if step.Tick? {
      SlotsTick(s, s');
    } else if step.DoEnter? {
      SlotsEnter(s, step.p, step.id);
    } else if step.TakeSlot? {
      SlotsTake(s, step.p);
    } else if step.DoPop? {
      SlotsPop(s, step.p);
    } else if step.DoLeave? {
      SlotsLeave(s, step.p);
    } else if step.DoRecheck? {
      SlotsStart(s, step.p, step.flight, step.runner);
    } else if step.TimeOut? || step.Answer? {
      ResultKeepsSlot(s, step);
      SlotsFrame(s, s', step.p, s'.tasks[step.p]);
    } else {
      StoreKeepsSlot(s, step);
      SlotsFrame(s, s', step.p, s'.tasks[step.p]);
    }
  }

  lemma SlotsTick(s: State, s': State)
    requires SlotsInv(s) && s'.sh == s.sh && s'.tasks == s.tasks
    ensures SlotsInv(s')
  {
    forall slot | slot in s'.sh.slots
      ensures RecordInv(s', slot)
    {
      assert RecordInv(s, slot);
    }
  }

  /** Slot records and flights keep the clients they were made for. */
  predicate KeepsClients(s: State, s': State) {
    && (forall slot :: slot in s.sh.slots ==> slot in s'.sh.slots && s'.sh.slots[slot].client == s.sh.slots[slot].client)
    && (forall f :: f in s.heap ==> f in s'.heap && s'.heap[f].client == s.heap[f].client)
  }

  lemma StepKeepsClients(s: State, step: Step)
    requires Enabled(s, step)
    ensures KeepsClients(s, Apply(s, step))
  {
  }

  lemma TaggedKept(s: State, s': State, t: Task)
    requires KeepsClients(s, s') && Tagged(s, t)
    ensures Tagged(s', t)
  {
  }

  predicate RunStep(step: Step) {
    || step.TakeGlobal? || step.TimeOut? || step.Answer? || step.PopGlobal? || step.DoStamp? || step.DoInsert?
    || step.DoUnregister? || step.DoClose?
  }

  /** `run` keeps its flight and its slot. */
  lemma RunTagged(s: State, s': State, step: Step)
    requires Enabled(s, step) && RunStep(step) && s' == Apply(s, step) && Tagged(s', s.tasks[step.p])
    ensures step.p in s'.tasks && Tagged(s', s'.tasks[step.p])
  {
  }

  lemma EnterTagged(s: State, p: Pid, id: SlotId)
    requires PointersInv(s) && Enabled(s, DoEnter(p, id))
    ensures Tagged(EnterStep(s, p, id), EnterStep(s, p, id).tasks[p])
  {
  }

  /** The steps that set a task's tag, or pass it on to a flight. */
  lemma CallerTagged(s: State, s': State, step: Step)
    requires Enabled(s, step) && s' == Apply(s, step) && (step.DoFind? || step.TakeSlot? || step.DoRecheck?)
    requires Tagged(s', s.tasks[step.p])
    ensures step.p in s'.tasks && Tagged(s', s'.tasks[step.p])
  {
  }

  lemma OthersTagged(s: State, s': State, step: Step)
    requires Enabled(s, step) && s' == Apply(s, step)
    requires step.Call? || step.Abandon? || step.DoPop? || step.DoLeave? || step.WaitDone? || step.WaitCancelled?
    ensures step.p in s'.tasks && Tagged(s', s'.tasks[step.p])
  {
  }

  lemma MovedTagged(s: State, s': State, step: Step)
    requires PointersInv(s) && TagsInv(s) && Enabled(s, step) && !step.Tick? && s' == Apply(s, step) && KeepsClients(s, s')
    ensures step.p in s'.tasks && Tagged(s', s'.tasks[step.p])
  {
    if RunStep(step) {
      TaggedKept(s, s', s.tasks[step.p]);
      RunTagged(s, s', step);
    } else if step.DoEnter? {
      EnterTagged(s, step.p, step.id);
    } else if step.DoFind? || step.TakeSlot? || step.DoRecheck? {
      TaggedKept(s, s', s.tasks[step.p]);
      CallerTagged(s, s', step);
    } else {
      OthersTagged(s, s', step);
    }
  }

  lemma RunnerTagged(s: State, p: Pid, f: FlightId, r: Pid)
    requires TagsInv(s) && Enabled(s, DoRecheck(p, f, r)) && Starts(s, p)
    ensures Tagged(StartStep(s, p, f, r), StartStep(s, p, f, r).tasks[r])
  {
    assert Tagged(s, s.tasks[p]);
  }

  lemma TagsStep(s: State, step: Step)
    requires PointersInv(s) && TagsInv(s) && Enabled(s, step)
    ensures TagsInv(Apply(s, step))
  {
    var s' := Apply(s, step);
    StepKeepsClients(s, step);
    if !step.Tick? {
      MovedTagged(s, s', step);
      if step.DoRecheck? && Starts(s, step.p) {
        RunnerTagged(s, step.p, step.flight, step.runner);
      }
    }
    forall p | p in s'.tasks
      ensures Tagged(s', s'.tasks[p])
    {
      if p in s.tasks && s'.tasks[p] == s.tasks[p] {
        TaggedKept(s, s', s.tasks[p]);
      }
    }
  }

  lemma GlobalStep(s: State, step: Step)
    requires GlobalInv(s) && Enabled(s, step)
    ensures GlobalInv(Apply(s, step))
  {
    if !step.Tick? {
      var s' := Apply(s, step);
      if step.DoRecheck? && Starts(s, step.p) {
        CountKept(s.tasks, step.runner, s'.tasks[step.runner], Upstream);
        CountKept(s.tasks[step.runner := s'.tasks[step.runner]], step.p, s'.tasks[step.p], Upstream);
      } else {
        UpstreamRole(s, step);
        CountGoto(s.tasks, step.p, s'.tasks[step.p], Upstream);
      }
    }
  }

  /** Only taking and giving back a global token moves a task into or out of its upstream call. */
  lemma UpstreamRole(s: State, step: Step)
    requires Enabled(s, step) && !step.Tick? && !(step.DoRecheck? && Starts(s, step.p))
    ensures var s' := Apply(s, step);
            && step.p in s'.tasks && s'.tasks == s.tasks[step.p := s'.tasks[step.p]]
            && s'.global - s.global ==
               (if Plays(s'.tasks[step.p], Upstream) then 1 else 0)
               - (if step.p in s.tasks && Plays(s.tasks[step.p], Upstream) then 1 else 0)
            && s'.global <= (if s.global > MAX_CONCURRENT then s.global else MAX_CONCURRENT)
  {
  }

  // ---------------------------------------------------------------------------------------------
  // Every step keeps flights with their own goroutines

  /** A task that moves within `run` or outside it leaves every flight as it was. */
  lemma FlightsFrame(s: State, s': State, p: Pid)
    requires FlightsInv(s) && p in s'.tasks && s'.tasks == s.tasks[p := s'.tasks[p]]
    requires s'.heap == s.heap && s'.sh.flights == s.sh.flights
    requires SameFlight(s.tasks, p, s'.tasks[p])
    ensures FlightsInv(s')
  {
  }

  lemma MapStepKeepsFlights(s: State, step: Step)
    requires Enabled(s, step)
    requires step.DoEnter? || step.TakeSlot? || step.DoPop? || step.DoLeave? || step.DoInsert?
    ensures var s' := Apply(s, step);
            && s'.heap == s.heap && s'.sh.flights == s.sh.flights
            && step.p in s'.tasks && s'.tasks == s.tasks[step.p := s'.tasks[step.p]]
            && SameFlight(s.tasks, step.p, s'.tasks[step.p])
  {
  }

  lemma FlightsStart(s: State, p: Pid, f: FlightId, r: Pid)
    requires FlightsInv(s) && Enabled(s, DoRecheck(p, f, r)) && Starts(s, p)
    ensures FlightsInv(StartStep(s, p, f, r))
  {
  }

  lemma FlightsResult(s: State, s': State, p: Pid, t: Task, o: Outcome)
    requires FlightsInv(s) && p in s.tasks && Registered(s.tasks[p])
    requires Registered(t) && t.flight == s.tasks[p].flight && t.query == s.tasks[p].query
    requires s'.heap == s.heap[t.flight := s.heap[t.flight].(result := Some(o))]
    requires s'.tasks == s.tasks[p := t] && s'.sh.flights == s.sh.flights
    ensures FlightsInv(s')
  {
  }

  lemma FlightsUnregister(s: State, p: Pid)
    requires FlightsInv(s) && Enabled(s, DoUnregister(p))
    ensures FlightsInv(UnregisterStep(s, p))
  {
  }

  lemma FlightsClose(s: State, p: Pid)
    requires FlightsInv(s) && Enabled(s, DoClose(p))
    ensures FlightsInv(CloseStep(s, p))
  {
  }

  lemma FlightsStep(s: State, step: Step)
    requires FlightsInv(s) && Enabled(s, step)
    ensures FlightsInv(Apply(s, step))
  {
    var s' := Apply(s, step);
    if Quiet(s, step) {
      QuietStep(s, step);
      FlightsFrame(s, s', step.p);
    } else if step.Tick? {
    } else if step.TimeOut? {
      FlightsResult(s, s', step.p, s'.tasks[step.p], ContextError);
    } else if step.Answer? {
      FlightsResult(s, s', step.p, s'.tasks[step.p], FromFlight(step.result));
    } else if step.DoUnregister? {
      FlightsUnregister(s, step.p);
    } else if step.DoClose? {
      FlightsClose(s, step.p);
    } else if step.DoRecheck? {
      FlightsStart(s, step.p, step.flight, step.runner);
    } else {
      MapStepKeepsFlights(s, step);
      FlightsFrame(s, s', step.p);
    }
  }

  // ---------------------------------------------------------------------------------------------
  // Every step keeps entries stale while their key is being looked up

  lemma StaleFrame(s: State, s': State, p: Pid)
    requires StaleInv(s) && p in s'.tasks && s'.tasks == s.tasks[p := s'.tasks[p]]
    requires s'.sh.entries == s.sh.entries && s.now <= s'.now
    requires Unstored(s'.tasks[p]) ==> p in s.tasks && Unstored(s.tasks[p]) && s'.tasks[p].query == s.tasks[p].query
    ensures StaleInv(s')
  {
  }

  lemma StaleInsert(s: State, p: Pid, kept: set<string>)
    requires StaleInv(s) && FlightsInv(s) && Enabled(s, DoInsert(p, kept))
    ensures StaleInv(InsertStep(s, p, kept))
  {
    var s' := InsertStep(s, p, kept);
    var key := KeyOf(s.tasks[p].query);
    assert |kept| <= MAX_ENTRIES - 1;
    assert s'.sh.entries.Keys <= kept + {key};
    SubsetSize(s'.sh.entries.Keys, kept + {key});
    assert |s'.sh.entries| == |s'.sh.entries.Keys|;
  }

  lemma StaleStep(s: State, step: Step)
    requires StaleInv(s) && FlightsInv(s) && Enabled(s, step)
    ensures StaleInv(Apply(s, step))
  {
    var s' := Apply(s, step);
    if Quiet(s, step) {
      QuietStep(s, step);
      StaleFrame(s, s', step.p);
    } else if step.Tick? {
    } else if step.DoInsert? {
      StaleInsert(s, step.p, step.kept);
    } else if step.DoRecheck? {
      StaleStart(s, step.p, step.flight, step.runner);
    } else {
      StaleFrame(s, s', step.p);
    }
  }

  lemma StaleStart(s: State, p: Pid, f: FlightId, r: Pid)
    requires StaleInv(s) && Enabled(s, DoRecheck(p, f, r)) && Starts(s, p)
    ensures StaleInv(StartStep(s, p, f, r))
  {
  }

  // ---------------------------------------------------------------------------------------------
  // Every step keeps answers genuine

  /** Two networks can have a key in common exactly if the one begins with the other and a bar. */
  lemma KeysCollideExactly(n: string, m: string)
    requires n != m
    ensures (exists h, g :: KeyOf(Query(n, h)) == KeyOf(Query(m, g))) <==> n + "|" <= m || m + "|" <= n
  {
    if h, g :| KeyOf(Query(n, h)) == KeyOf(Query(m, g)) {
      CommonKey(Query(n, h), Query(m, g));
    }
    if n + "|" <= m {
      assert KeyOf(Query(n, m[|n| + 1..] + "|")) == KeyOf(Query(m, ""));
    } else if m + "|" <= n {
      assert KeyOf(Query(n, "")) == KeyOf(Query(m, n[|m| + 1..] + "|"));
    }
  }

  lemma CommonKey(q: Query, r: Query)
    requires KeyOf(q) == KeyOf(r)
    ensures q == r || q.network + "|" <= r.network || r.network + "|" <= q.network
  {
    var key, i, j := KeyOf(q), |q.network|, |r.network|;
    assert q.network + "|" == key[..i + 1] && r.network + "|" == key[..j + 1];
    assert q.network == key[..i] && r.network == key[..j];
    if i == j {
      assert q.host == key[i + 1..] && r.host == key[j + 1..];
    }
  }

  /** Within the networks that have no bar, a key stands for one query. */
  lemma KeyInjective(q: Query, r: Query)
    requires PlainNetwork(q) && PlainNetwork(r)
    requires KeyOf(q) == KeyOf(r)
    ensures q == r
  {
    CommonKey(q, r);
    NoBarAfter(q.network, r.network);
    NoBarAfter(r.network, q.network);
  }

  lemma NoBarAfter(n: string, m: string)
    requires '|' !in m
    ensures !(n + "|" <= m)
  {
    if |n| < |m| {
      assert m[|n|] in m;
      assert (n + "|")[|n|] == '|';
    }
  }

  /** Time goes on, lookups are added to the history, and flights keep their queries. */
  predicate Grows(s: State, s': State) {
    && s.now <= s'.now && s.history <= s'.history
    && forall f :: f in s.heap ==> f in s'.heap && s'.heap[f].query == s.heap[f].query
  }

  lemma StepGrows(s: State, step: Step)
    requires Enabled(s, step)
    ensures Grows(s, Apply(s, step))
  {
  }

  lemma TaskGrows(s: State, s': State, t: Task)
    requires Grows(s, s') && GenuineTask(s, t)
    ensures GenuineTask(s', t)
  {
  }

  /** What a lookup finds in the maps is genuine for the query it was made for. */
  lemma FindGenuine(s: State, q: Query)
    requires FlightsInv(s) && HeapInv(s) && EntriesInv(s) && PlainNetwork(q)
    ensures match FindIn(s.sh, KeyOf(q), s.now)
            case Fresh(e) => GenuineAfter(s, Serve(q, e, s.now))
            case Flying(f) => GenuineAfter(s, ThenWait(q, f))
            case Missing => true
  {
    match FindIn(s.sh, KeyOf(q), s.now)
    case Fresh(e) =>
      var r :| KeyOf(r) == KeyOf(q) && PlainNetwork(r) && GenuineEntry(s, r, e);
      KeyInjective(q, r);
    case Flying(f) => KeyInjective(q, s.heap[f].query);
    case Missing =>
  }

  lemma ReleaseGenuine(s: State, held: Option<SlotId>, a: After)
    requires GenuineAfter(s, a)
    ensures GenuineTask(s, Release(held, a)) && GenuineTask(s, Resume(a))
  {
  }

  lemma FindStepGenuine(s: State, step: Step)
    requires FlightsInv(s) && AnswersInv(s) && Enabled(s, step) && (step.DoFind? || step.DoRecheck?)
    ensures step.p in Apply(s, step).tasks && GenuineTask(Apply(s, step), Apply(s, step).tasks[step.p])
  {
    var s' := Apply(s, step);
    var t := s.tasks[step.p];
    assert GenuineTask(s, t);
    FindGenuine(s, t.query);
    match FindIn(s.sh, KeyOf(t.query), s.now)
    case Fresh(e) => ReleaseGenuine(s', if t.Recheck? then t.held else None, Serve(t.query, e, s.now));
    case Flying(f) => ReleaseGenuine(s', if t.Recheck? then t.held else None, ThenWait(t.query, f));
    case Missing =>
  }

  lemma RunGenuine(s: State, s': State, step: Step)
    requires Enabled(s, step) && RunStep(step) && s' == Apply(s, step) && s.now <= s'.now
    requires GenuineTask(s', s.tasks[step.p])
    ensures step.p in s'.tasks && GenuineTask(s', s'.tasks[step.p])
  {
    if step.Answer? {
      assert Lookup(s.tasks[step.p].query, step.result, s.now) in s'.history;
    } else if step.DoClose? {
      ReleaseGenuine(s', s.tasks[step.p].held, ThenExit);
    }
  }

  lemma OthersGenuine(s: State, s': State, step: Step)
    requires Enabled(s, step) && s' == Apply(s, step)
    requires step.DoEnter? || step.TakeSlot? || step.Abandon? || step.DoPop? || step.DoLeave? || step.WaitCancelled?
    requires GenuineTask(s', s.tasks[step.p])
    ensures step.p in s'.tasks && GenuineTask(s', s'.tasks[step.p])
  {
    if step.DoLeave? {
      ReleaseGenuine(s', None, s.tasks[step.p].after);
    }
  }

  lemma WaitDoneGenuine(s: State, p: Pid)
    requires AnswersInv(s) && Enabled(s, WaitDone(p))
    ensures p in Apply(s, WaitDone(p)).tasks && GenuineTask(Apply(s, WaitDone(p)), Apply(s, WaitDone(p)).tasks[p])
  {
    assert GenuineTask(s, s.tasks[p]);
  }

  lemma MovedGenuine(s: State, s': State, step: Step)
    requires FlightsInv(s) && AnswersInv(s) && Enabled(s, step) && !step.Tick? && s' == Apply(s, step) && Grows(s, s')
    ensures step.p in s'.tasks && GenuineTask(s', s'.tasks[step.p])
  {
    if step.DoFind? || step.DoRecheck? {
      FindStepGenuine(s, step);
    } else if step.WaitDone? {
      WaitDoneGenuine(s, step.p);
    } else if !step.Call? {
      TaskGrows(s, s', s.tasks[step.p]);
      if RunStep(step) {
        RunGenuine(s, s', step);
      } else {
        OthersGenuine(s, s', step);
      }
    }
  }

  /** A step moves one task, and may start another. */
  lemma OthersStay(s: State, step: Step, p: Pid)
    requires Enabled(s, step) && p in Apply(s, step).tasks && (step.Tick? || p != step.p)
    ensures || (p in s.tasks && Apply(s, step).tasks[p] == s.tasks[p])
            || (step.DoRecheck? && Starts(s, step.p) && p == step.runner
                && Apply(s, step).tasks[p] == AwaitGlobal(s.tasks[step.p].query, step.flight, s.tasks[step.p].held))
  {
  }

  lemma TasksStep(s: State, step: Step)
    requires FlightsInv(s) && AnswersInv(s) && Enabled(s, step)
    ensures TasksInv(Apply(s, step))
  {
    var s' := Apply(s, step);
    StepGrows(s, step);
    forall p | p in s'.tasks
      ensures GenuineTask(s', s'.tasks[p])
    {
      if !step.Tick? && p == step.p {
        MovedGenuine(s, s', step);
      } else {
        OtherGenuine(s, s', step, p);
      }
    }
  }

  lemma OtherGenuine(s: State, s': State, step: Step, p: Pid)
    requires TasksInv(s) && Enabled(s, step) && s' == Apply(s, step) && Grows(s, s')
    requires p in s'.tasks && (step.Tick? || p != step.p)
    ensures GenuineTask(s', s'.tasks[p])
  {
    OthersStay(s, step, p);
    if p in s.tasks && s'.tasks[p] == s.tasks[p] {
      TaskGrows(s, s', s.tasks[p]);
    } else {
      assert GenuineTask(s, s.tasks[step.p]);
    }
  }

  lemma ResultsStep(s: State, step: Step)
    requires ResultsInv(s) && Enabled(s, step)
    ensures ResultsInv(Apply(s, step))
  {
    var s' := Apply(s, step);
    HeapKeepsResults(s, step);
    if !step.Tick? {
      MoverOver(s, step);
    }
  }

  lemma HeapKeepsResults(s: State, step: Step)
    requires Enabled(s, step)
    requires step.DoClose? ==> s.heap[s.tasks[step.p].flight].result.Some?
    ensures forall f :: f in s.heap && s.heap[f].result.Some? ==>
              f in Apply(s, step).heap && Apply(s, step).heap[f].result.Some?
    ensures forall f :: f in Apply(s, step).heap && Apply(s, step).heap[f].done ==>
              Apply(s, step).heap[f].result.Some? || (f in s.heap && s.heap[f].done)
  {
  }

  lemma MoverOver(s: State, step: Step)
    requires Enabled(s, step) && !step.Tick?
    requires step.p in s.tasks && Over(s.tasks[step.p]) ==>
               s.tasks[step.p].flight in s.heap && s.heap[s.tasks[step.p].flight].result.Some?
    ensures var s' := Apply(s, step);
            && step.p in s'.tasks
            && (Over(s'.tasks[step.p]) ==>
                  s'.tasks[step.p].flight in s'.heap && s'.heap[s'.tasks[step.p].flight].result.Some?)
            && (forall p :: p in s'.tasks && p != step.p && Over(s'.tasks[p]) ==>
                  p in s.tasks && s'.tasks[p] == s.tasks[p])
  {
  }

  lemma HeapFrame(s: State, s': State)
    requires HeapInv(s) && Grows(s, s')
    requires forall f :: f in s'.heap && (f !in s.heap || s'.heap[f].result != s.heap[f].result) ==>
               && PlainNetwork(s'.heap[f].query)
               && (s'.heap[f].result.Some? ==>
                     !s'.heap[f].result.value.FromCache? && Genuine(s', s'.heap[f].query, s'.heap[f].result.value))
    ensures HeapInv(s')
  {
  }

  lemma HeapSame(s: State, step: Step)
    requires Enabled(s, step) && !step.Answer? && !step.TimeOut? && !step.DoClose? && !(step.DoRecheck? && Starts(s, step.p))
    ensures Apply(s, step).heap == s.heap
  {
  }

  lemma HeapStep(s: State, step: Step)
    requires AnswersInv(s) && FlightsInv(s) && Enabled(s, step)
    ensures HeapInv(Apply(s, step))
  {
    var s' := Apply(s, step);
    StepGrows(s, step);
    if step.Answer? {
      HeapAnswer(s, step.p, step.result);
    } else if step.TimeOut? || step.DoClose? || (step.DoRecheck? && Starts(s, step.p)) {
      HeapOther(s, step);
    } else {
      HeapSame(s, step);
      HeapFrame(s, s');
    }
  }

  lemma HeapAnswer(s: State, p: Pid, result: LookupResult)
    requires HeapInv(s) && Enabled(s, Answer(p, result)) && Grows(s, AnswerStep(s, p, result)) && OwnsFlight(s, p)
    ensures HeapInv(AnswerStep(s, p, result))
  {
    var s' := AnswerStep(s, p, result);
    assert Lookup(s.tasks[p].query, result, s.now) in s'.history;
    HeapFrame(s, s');
  }

  lemma HeapOther(s: State, step: Step)
    requires HeapInv(s) && TasksInv(s) && Enabled(s, step) && Grows(s, Apply(s, step))
    requires step.TimeOut? || step.DoClose? || (step.DoRecheck? && Starts(s, step.p))
    ensures HeapInv(Apply(s, step))
  {
    assert GenuineTask(s, s.tasks[step.p]);
    HeapFrame(s, Apply(s, step));
  }

  lemma EntriesFrame(s: State, s': State)
    requires EntriesInv(s) && Grows(s, s')
    requires forall k :: k in s'.sh.entries ==>
               || (k in s.sh.entries && s'.sh.entries[k] == s.sh.entries[k])
               || exists q :: KeyOf(q) == k && PlainNetwork(q) && GenuineEntry(s', q, s'.sh.entries[k])
    ensures EntriesInv(s')
  {
    forall k | k in s'.sh.entries
      ensures exists q :: KeyOf(q) == k && PlainNetwork(q) && GenuineEntry(s', q, s'.sh.entries[k])
    {
      if k in s.sh.entries && s'.sh.entries[k] == s.sh.entries[k] {
        var q :| KeyOf(q) == k && PlainNetwork(q) && GenuineEntry(s, q, s.sh.entries[k]);
        assert GenuineEntry(s', q, s'.sh.entries[k]);
      }
    }
  }

  lemma EntriesStep(s: State, step: Step)
    requires AnswersInv(s) && Enabled(s, step)
    ensures EntriesInv(Apply(s, step))
  {
    StepGrows(s, step);
    if step.DoInsert? {
      EntriesInsert(s, step.p, step.kept);
    } else {
      EntriesFrame(s, Apply(s, step));
    }
  }

  lemma EntriesInsert(s: State, p: Pid, kept: set<string>)
    requires AnswersInv(s) && Enabled(s, DoInsert(p, kept))
    ensures EntriesInv(InsertStep(s, p, kept))
  {
    var s' := InsertStep(s, p, kept);
    var t := s.tasks[p];
    assert GenuineTask(s, t);
    assert KeyOf(t.query) == KeyOf(t.query) && GenuineEntry(s', t.query, s'.sh.entries[KeyOf(t.query)]);
    EntriesFrame(s, s');
  }

  lemma InvStep(s: State, step: Step)
    requires Inv(s) && Enabled(s, step)
    ensures Inv(Apply(s, step))
  {
    SlotsStep(s, step);
    TagsStep(s, step);
    GlobalStep(s, step);
    FlightsStep(s, step);
    StaleStep(s, step);
    TasksStep(s, step);
    ResultsStep(s, step);
    HeapStep(s, step);
    EntriesStep(s, step);
  }
}
