/**
 Concurrent Apply calls on the shared processed_events table. Each step is one autocommitted
 statement, the end of a handler or the death of its process, so calls of any group
 interleave freely.
 */
module DedupeProtocol {
  import opened Common

  datatype Key = Key(eventId: string, group: string)

  datatype Phase =
    | Running    // the row is committed, the handler is in flight
    | Deleting   // the handler failed, the DELETE is next
    | Succeeded  // the handler returned nil
    | Skipped    // another call held the row
    | Failed     // an error was returned
    | Crashed    // the process died with the call in flight

  datatype Call = Call(key: Key, phase: Phase)

  /** `stuck` are the rows left behind by a DELETE that failed or by a crash. */
  datatype State = State(rows: set<Key>, calls: map<nat, Call>, stuck: set<Key>)

  const Initial := State({}, map[], {})

  datatype Action =
    | Insert(key: Key)        // INSERT ... ON CONFLICT DO NOTHING
    | InsertFails(key: Key)
    | HandlerReturns(ok: bool)
    | Delete
    | DeleteFails
    | Crash

  predicate InFlight(call: Call) {
    call.phase.Running? || call.phase.Deleting?
  }

  predicate Enabled(s: State, c: nat, a: Action) {
    match a
    case Insert(_) => c !in s.calls
    case InsertFails(_) => c !in s.calls
    case HandlerReturns(_) => c in s.calls && s.calls[c].phase.Running?
    case Delete => c in s.calls && s.calls[c].phase.Deleting?
    case DeleteFails => c in s.calls && s.calls[c].phase.Deleting?
    case Crash => c in s.calls && InFlight(s.calls[c])
  }

  function Next(s: State, c: nat, a: Action): State
    requires Enabled(s, c, a)
  {
    match a
    case Insert(key) =>
      if key in s.rows then s.(calls := s.calls[c := Call(key, Skipped)])
      else s.(rows := s.rows + {key}, calls := s.calls[c := Call(key, Running)])
    case InsertFails(key) => s.(calls := s.calls[c := Call(key, Failed)])
    case HandlerReturns(ok) =>
      s.(calls := s.calls[c := s.calls[c].(phase := if ok then Succeeded else Deleting)])
    case Delete =>
      s.(rows := s.rows - {s.calls[c].key}, calls := s.calls[c := s.calls[c].(phase := Failed)])
    case DeleteFails =>
      s.(calls := s.calls[c := s.calls[c].(phase := Failed)], stuck := s.stuck + {s.calls[c].key})
    case Crash =>
      s.(calls := s.calls[c := s.calls[c].(phase := Crashed)], stuck := s.stuck + {s.calls[c].key})
  }

  /** A call that put the row there and has not taken it away. */
  predicate Owns(call: Call) {
    InFlight(call) || call.phase.Succeeded?
  }

  ghost predicate OwnersHaveRows(s: State) {
    forall c :: c in s.calls && Owns(s.calls[c]) ==> s.calls[c].key in s.rows && s.calls[c].key !in s.stuck
  }

  ghost predicate OneOwnerPerKey(s: State) {
    forall c, d :: c in s.calls && d in s.calls && c != d && Owns(s.calls[c]) && Owns(s.calls[d]) ==>
      s.calls[c].key != s.calls[d].key
  }

  ghost predicate RowsHaveOwners(s: State) {
    forall k :: k in s.rows ==> k in s.stuck || exists c :: c in s.calls && Owns(s.calls[c]) && s.calls[c].key == k
  }

  ghost predicate Inv(s: State) {
    s.stuck <= s.rows && OwnersHaveRows(s) && OneOwnerPerKey(s) && RowsHaveOwners(s)
  }

  lemma StepKeepsInv(s: State, c: nat, a: Action)
    requires Inv(s) && Enabled(s, c, a)
    ensures Inv(Next(s, c, a))
  {
    hide RowsHaveOwners;
    StepKeepsRowsOwned(s, c, a);
  }

  lemma StepKeepsRowsOwned(s: State, c: nat, a: Action)
    requires RowsHaveOwners(s) && Enabled(s, c, a)
    ensures RowsHaveOwners(Next(s, c, a))
  {
    var s' := Next(s, c, a);
    forall k | k in s'.rows
      ensures k in s'.stuck || exists d :: d in s'.calls && Owns(s'.calls[d]) && s'.calls[d].key == k
    {
      if k in s.rows && k !in s'.stuck {
        var d :| d in s.calls && Owns(s.calls[d]) && s.calls[d].key == k;
        if d == c { assert s'.calls[c].key == k; } else { assert s'.calls[d] == s.calls[d]; }
      } else if k !in s.rows {
        assert s'.calls[c].key == k;
      }
    }
  }

  datatype Step = Step(call: nat, action: Action)

  predicate Possible(s: State, run: seq<Step>)
    decreases |run|
  {
    run != [] ==> Enabled(s, run[0].call, run[0].action) && Possible(Next(s, run[0].call, run[0].action), run[1..])
  }

  function After(s: State, run: seq<Step>): State
    requires Possible(s, run)
    decreases |run|
  {
    if run == [] then s else After(Next(s, run[0].call, run[0].action), run[1..])
  }

  lemma {:induction false} RunKeepsInv(s: State, run: seq<Step>)
    requires Inv(s) && Possible(s, run)
    ensures Inv(After(s, run))
    decreases |run|
  {
    if run != [] {
      StepKeepsInv(s, run[0].call, run[0].action);
      RunKeepsInv(Next(s, run[0].call, run[0].action), run[1..]);
    }
  }

  lemma RunOneMore(s: State, c: nat, a: Action, rest: seq<Step>)
    requires Enabled(s, c, a) && Possible(Next(s, c, a), rest)
    ensures Possible(s, [Step(c, a)] + rest) && After(s, [Step(c, a)] + rest) == After(Next(s, c, a), rest)
  {
    assert ([Step(c, a)] + rest)[1..] == rest;
  }

  /**
   What one attempt does when it finds no row and nothing fails: the row is inserted and the
   handler runs; a success leaves the row, a failure takes it back.
   */
  lemma AttemptWithoutRow(s: State, c: nat, key: Key, ok: bool)
    requires c !in s.calls && key !in s.rows
    ensures var run := [Step(c, Insert(key)), Step(c, HandlerReturns(ok))] + if ok then [] else [Step(c, Delete)];
      && Possible(s, run)
      && After(s, run) == State(
           if ok then s.rows + {key} else s.rows,
           s.calls[c := Call(key, if ok then Succeeded else Failed)],
           s.stuck)
  {
    var s1 := Next(s, c, Insert(key));
    var s2 := Next(s1, c, HandlerReturns(ok));
    var rest: seq<Step> := if ok then [] else [Step(c, Delete)];
    if !ok {
      RunOneMore(s2, c, Delete, []);
      assert [Step(c, Delete)] + [] == [Step(c, Delete)];
      assert s.rows + {key} - {key} == s.rows;
    }
    RunOneMore(s1, c, HandlerReturns(ok), rest);
    RunOneMore(s, c, Insert(key), [Step(c, HandlerReturns(ok))] + rest);
    assert [Step(c, Insert(key))] + ([Step(c, HandlerReturns(ok))] + rest)
        == [Step(c, Insert(key)), Step(c, HandlerReturns(ok))] + rest;
  }

  /** What one attempt does when it finds a row, or when its INSERT fails. */
  lemma AttemptWithRow(s: State, c: nat, key: Key)
    requires c !in s.calls
    ensures key in s.rows ==>
      Enabled(s, c, Insert(key)) && Next(s, c, Insert(key)) == State(s.rows, s.calls[c := Call(key, Skipped)], s.stuck)
    ensures Enabled(s, c, InsertFails(key))
      && Next(s, c, InsertFails(key)) == State(s.rows, s.calls[c := Call(key, Failed)], s.stuck)
  {
  }

  /**
   A handler that returned nil is never run again for its key: whatever follows, the row
   stays, no call of the key is in its handler, and every further attempt is skipped.
   */
  lemma HandledOnceAndForAll(s: State, c: nat, run: seq<Step>, d: nat)
    requires Inv(s) && Enabled(s, c, HandlerReturns(true))
    requires Possible(Next(s, c, HandlerReturns(true)), run)
    ensures var s', key := After(Next(s, c, HandlerReturns(true)), run), s.calls[c].key;
      && key in s'.rows
      && (d in s'.calls && s'.calls[d].key == key ==> s'.calls[d].phase != Running)
      && (d !in s'.calls ==> Enabled(s', d, Insert(key)) && Next(s', d, Insert(key)).calls[d].phase == Skipped)
  {
    var s1 := Next(s, c, HandlerReturns(true));
    StepKeepsInv(s, c, HandlerReturns(true));
    RunKeepsInv(s1, run);
    SuccessIsFinal(s1, run, c);
    var s' := After(s1, run);
    assert Owns(s'.calls[c]);
  }

  /** Never two handlers in flight for one key, never two that succeed, and none after a success. */
  lemma OneHandlerAtATime(run: seq<Step>, c: nat, d: nat)
    requires Possible(Initial, run)
    requires var s := After(Initial, run);
      c in s.calls && d in s.calls && c != d && s.calls[c].key == s.calls[d].key
    ensures var s := After(Initial, run);
      s.calls[c].phase in {Running, Succeeded} ==> s.calls[d].phase !in {Running, Succeeded}
  {
    RunKeepsInv(Initial, run);
  }

  /** A success is final: the row stays and no later step changes that. */
  lemma {:induction false} SuccessIsFinal(s: State, run: seq<Step>, c: nat)
    requires Inv(s) && Possible(s, run) && c in s.calls && s.calls[c].phase.Succeeded?
    ensures c in After(s, run).calls && After(s, run).calls[c] == s.calls[c]
    decreases |run|
  {
    if run != [] {
      StepKeepsInv(s, run[0].call, run[0].action);
      SuccessIsFinal(Next(s, run[0].call, run[0].action), run[1..], c);
    }
  }

  /**
   An attempt runs its handler exactly when no call owns the key and neither a failed DELETE
   nor a crash left a row behind. So a failed handler whose DELETE succeeded makes the next
   one runnable.
   */
  lemma RunnableExactlyWhenUnowned(s: State, c: nat, key: Key)
    requires Inv(s) && c !in s.calls
    ensures Next(s, c, Insert(key)).calls[c].phase.Running? <==>
      key !in s.stuck && forall d :: d in s.calls && s.calls[d].key == key ==> !Owns(s.calls[d])
  {
    if key in s.rows && key !in s.stuck {
      var d :| d in s.calls && Owns(s.calls[d]) && s.calls[d].key == key;
    }
  }

  lemma FailureMakesRetryRunnable(s: State, c: nat, retry: nat)
    requires Inv(s) && Enabled(s, c, Delete) && retry !in s.calls
    ensures var s' := Next(s, c, Delete);
      Enabled(s', retry, Insert(s.calls[c].key))
      && Next(s', retry, Insert(s.calls[c].key)).calls[retry].phase.Running?
  {
  }

  /**
   A skipped call returns nil, which its caller takes for "done". That is true, or still in
   the hands of the owner, exactly when the key is not stuck.
   */
  lemma SkipMeansOwnedUnlessStuck(s: State, c: nat, key: Key)
    requires Inv(s) && c !in s.calls && key in s.rows
    ensures Next(s, c, Insert(key)).calls[c].phase.Skipped?
    ensures (exists d :: d in s.calls && s.calls[d].key == key && Owns(s.calls[d])) <==> key !in s.stuck
  {
  }

  /** The retry after a failed DELETE is skipped although no handler ever succeeded. */
  lemma FailedDeleteLosesTheEvent(key: Key)
    ensures var run := [Step(0, Insert(key)), Step(0, HandlerReturns(false)), Step(0, DeleteFails), Step(1, Insert(key))];
      && Possible(Initial, run)
      && After(Initial, run).calls == map[0 := Call(key, Failed), 1 := Call(key, Skipped)]
  {
    var last := [Step(1, Insert(key))];
    var s1 := Next(Initial, 0, Insert(key));
    var s2 := Next(s1, 0, HandlerReturns(false));
    var s3 := Next(s2, 0, DeleteFails);
    RunOneMore(s3, 1, Insert(key), []);
    RunOneMore(s2, 0, DeleteFails, last);
    RunOneMore(s1, 0, HandlerReturns(false), [Step(0, DeleteFails)] + last);
    RunOneMore(Initial, 0, Insert(key), [Step(0, HandlerReturns(false))] + ([Step(0, DeleteFails)] + last));
    assert [Step(0, Insert(key))] + ([Step(0, HandlerReturns(false))] + ([Step(0, DeleteFails)] + last))
        == [Step(0, Insert(key)), Step(0, HandlerReturns(false)), Step(0, DeleteFails), Step(1, Insert(key))];
  }

  /** The retry after a crash is skipped although no handler ever returned. */
  lemma CrashLosesTheEvent(key: Key)
    ensures var run := [Step(0, Insert(key)), Step(0, Crash), Step(1, Insert(key))];
      && Possible(Initial, run)
      && After(Initial, run).calls == map[0 := Call(key, Crashed), 1 := Call(key, Skipped)]
  {
    var last := [Step(1, Insert(key))];
    var s1 := Next(Initial, 0, Insert(key));
    var s2 := Next(s1, 0, Crash);
    RunOneMore(s2, 1, Insert(key), []);
    RunOneMore(s1, 0, Crash, last);
    RunOneMore(Initial, 0, Insert(key), [Step(0, Crash)] + last);
    assert [Step(0, Insert(key))] + ([Step(0, Crash)] + last)
        == [Step(0, Insert(key)), Step(0, Crash), Step(1, Insert(key))];
  }

  /** The process of call `c` dies; a call that has returned has nothing left to lose. */
  function AfterCrash(s: State, c: nat): State
    requires c in s.calls
  {
    if InFlight(s.calls[c]) then Next(s, c, Crash) else s
  }

  /**
   Whenever the process of a call dies, a retry runs the handler if and only if the dedupe
   row was not in the table at that moment. Mid-handler it always is.
   */
  lemma RetryAfterCrash(s: State, c: nat, retry: nat)
    requires Inv(s) && c in s.calls && retry !in s.calls
    ensures Enabled(AfterCrash(s, c), retry, Insert(s.calls[c].key))
    ensures Next(AfterCrash(s, c), retry, Insert(s.calls[c].key)).calls[retry].phase.Running?
      <==> s.calls[c].key !in s.rows
    ensures InFlight(s.calls[c]) ==> s.calls[c].key in s.rows
  {
  }

  /** Once a key is stuck, no attempt made from then on ever runs its handler. */
  lemma {:induction false} StuckForever(s: State, run: seq<Step>, key: Key, d: nat)
    requires Inv(s) && Possible(s, run) && key in s.stuck
    requires d in s.calls && s.calls[d].key == key ==> s.calls[d].phase in {Skipped, Failed}
    ensures key in After(s, run).stuck
    ensures d in After(s, run).calls && After(s, run).calls[d].key == key ==>
      After(s, run).calls[d].phase in {Skipped, Failed}
    decreases |run|
  {
    if run != [] {
      StepKeepsInv(s, run[0].call, run[0].action);
      StuckForever(Next(s, run[0].call, run[0].action), run[1..], key, d);
    }
  }

  // ----- groups are independent -----

  function KeyOf(s: State, c: nat, a: Action): Key
    requires Enabled(s, c, a)
  {
    match a
    case Insert(key) => key
    case InsertFails(key) => key
    case _ => s.calls[c].key
  }

  /** What one key's calls can see of the state. */
  function Project(s: State, key: Key): State {
    State(s.rows * {key}, map c | c in s.calls && s.calls[c].key == key :: s.calls[c], s.stuck * {key})
  }

  /**
   Steps for other keys, in particular of other groups, are invisible to a key, and its own
   steps do to its projection what they do to the whole.
   */
  lemma KeysAreIndependent(s: State, c: nat, a: Action, key: Key)
    requires Enabled(s, c, a)
    ensures KeyOf(s, c, a) != key ==> Project(Next(s, c, a), key) == Project(s, key)
    ensures KeyOf(s, c, a) == key ==>
      Enabled(Project(s, key), c, a) && Project(Next(s, c, a), key) == Next(Project(s, key), c, a)
  {
    var s', p := Next(s, c, a), Project(s, key);
    if KeyOf(s, c, a) != key {
      assert Project(s', key).calls == p.calls;
    } else {
      assert Project(s', key).calls == Next(p, c, a).calls;
      assert Project(s', key).rows == Next(p, c, a).rows;
    }
  }

  /** The steps of a run that belong to one key. */
  function StepsOf(s: State, run: seq<Step>, key: Key): seq<Step>
    requires Possible(s, run)
    decreases |run|
  {
    if run == [] then []
    else
      var rest := StepsOf(Next(s, run[0].call, run[0].action), run[1..], key);
      if KeyOf(s, run[0].call, run[0].action) == key then [run[0]] + rest else rest
  }

  /**
   Over every run, a key sees exactly the run of its own steps: dropping the steps of all
   other events and groups changes nothing for it.
   */
  lemma {:induction false} RunsOfKeysAreIndependent(s: State, run: seq<Step>, key: Key)
    requires Possible(s, run)
    ensures Possible(Project(s, key), StepsOf(s, run, key))
    ensures Project(After(s, run), key) == After(Project(s, key), StepsOf(s, run, key))
    decreases |run|
  {
    if run != [] {
      var c, a := run[0].call, run[0].action;
      hide Project, KeyOf;
      KeysAreIndependent(s, c, a, key);
      RunsOfKeysAreIndependent(Next(s, c, a), run[1..], key);
      if KeyOf(s, c, a) == key {
        assert run[0] == Step(c, a);
        RunOneMore(Project(s, key), c, a, StepsOf(Next(s, c, a), run[1..], key));
      }
    }
  }
}
