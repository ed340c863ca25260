/** The ConditionalLocalUpdates object itself, appending to and editing the operation list of its context. */
module ConditionalLocalUpdates {
  import opened Wrappers
  import opened Ir
  import Spec = LocalUpdatesSpec
  import IfConversionFrame

  type Mode = Spec.Mode

  class IRContext {
    var operations: seq<Op>
    var registerCount: nat
    var predicateStack: seq<Reg>
    /** The objects registered for write notifications, outermost first. */
    var registerAccessNotificationStack: seq<ConditionalLocalUpdates>

    constructor (firstRegister: nat)
      ensures operations == [] && registerCount == firstRegister && predicateStack == []
      ensures registerAccessNotificationStack == []
    {
      operations, registerCount, predicateStack := [], firstRegister, [];
      registerAccessNotificationStack := [];
    }

    function GetConditionStackDepth(): nat
      reads this
    {
      |registerAccessNotificationStack|
    }

    method AllocateRegister() returns (r: Reg)
      modifies this`registerCount
      ensures r == old(registerCount) && registerCount == old(registerCount) + 1
    {
      r := registerCount;
      registerCount := registerCount + 1;
    }

    /** Saves a copy of the input and conjoins it with the enclosing predicate. */
    method PushPredicate(input: Reg)
      modifies this`operations, this`registerCount, this`predicateStack
      ensures operations ==
              old(operations) + Spec.PushPredicate(Spec.Ctx(old(registerCount), old(predicateStack), []), input).0
      ensures registerCount == Spec.PushPredicate(Spec.Ctx(old(registerCount), old(predicateStack), []), input).1.next
      ensures predicateStack == Spec.PushPredicate(Spec.Ctx(old(registerCount), old(predicateStack), []), input).1.preds
      ensures var leaf, before := old(registerCount), old(predicateStack);
        if before == [] then
          operations == old(operations) + [Mov(leaf, input)] && predicateStack == [leaf] && registerCount == leaf + 1
        else
          && operations == old(operations) + [Mov(leaf, input), And(leaf + 1, input, before[|before| - 1])]
          && predicateStack == before + [leaf + 1] && registerCount == leaf + 2
    {
      var leaf := AllocateRegister();
      operations := operations + [Mov(leaf, input)];
      var combined := leaf;
      if predicateStack != [] {
        combined := AllocateRegister();
        operations := operations + [And(combined, input, predicateStack[|predicateStack| - 1])];
      }
      predicateStack := predicateStack + [combined];
    }

    method PushInversePredicate(input: Reg)
      modifies this`operations, this`registerCount, this`predicateStack
      ensures operations == old(operations) + [Invert(old(registerCount), input)]
                            + Spec.PushPredicate(Spec.Ctx(old(registerCount) + 1, old(predicateStack), []),
                                                 old(registerCount)).0
      ensures registerCount ==
              Spec.PushPredicate(Spec.Ctx(old(registerCount) + 1, old(predicateStack), []), old(registerCount)).1.next
      ensures predicateStack ==
              Spec.PushPredicate(Spec.Ctx(old(registerCount) + 1, old(predicateStack), []), old(registerCount)).1.preds
    {
      var inverted := AllocateRegister();
      operations := operations + [Invert(inverted, input)];
      PushPredicate(inverted);
    }

    method PopPredicate()
      requires predicateStack != []
      modifies this`predicateStack
      ensures predicateStack == old(predicateStack)[..|old(predicateStack)| - 1]
    {
      predicateStack := predicateStack[..|predicateStack| - 1];
    }
  }

  /** Backups depend only on which registers are tracked and where they are saved. */
  lemma {:induction false} BackupOpsSame(u: map<Reg, Spec.Updated>, v: map<Reg, Spec.Updated>, order: seq<Reg>)
    requires forall r :: r in order ==> (r in u <==> r in v)
    requires forall r :: r in order && r in u ==> u[r].backup == v[r].backup && u[r].value == v[r].value
    ensures Spec.BackupOps(u, order) == Spec.BackupOps(v, order)
    decreases |order|
  {
    if order != [] { BackupOpsSame(u, v, order[..|order| - 1]); }
  }

  /** The specification functions on a context with a single object. */
  lemma BeginCaseOfOne(next: nat, preds: seq<Reg>, c: Spec.Clu, p: Reg, mode: Mode)
    ensures var begin := Spec.BeginCase(Spec.Ctx(next, preds, [c]), p, mode);
            var inputs := if mode == Spec.Normal then next else next + 1;
            var push := Spec.PushPredicate(Spec.Ctx(inputs + 1, preds, []), inputs);
            && begin.0 == [Mov(next, p)] + (if mode == Spec.Normal then [] else [Invert(next + 1, next)]) + push.0
            && begin.1 == Spec.Ctx(push.1.next, push.1.preds, [c.(predicate_ := next, mode := mode)])
  {
  }

  lemma Regroup(start: seq<Op>, copy: seq<Op>, invert: seq<Op>, push: seq<Op>)
    ensures start + copy + invert + push == start + (copy + invert + push)
    ensures start + copy + push == start + (copy + [] + push)
  {
  }

  lemma Regroup3(a: seq<Op>, b: seq<Op>, c: seq<Op>, d: seq<Op>)
    ensures a + b + c + d == a + (b + c + d)
  {
  }

  lemma EndOpsOneMore(start: seq<Op>, c: Spec.Clu, r: Reg)
    ensures start + Spec.EndOps(c, r, {}) + Spec.EndOne(c, r, {}) == start + Spec.EndOps(c, r + 1, {})
  {
  }

  /** The table after register r was ended with its select at position at. */
  ghost function RecordOne(c: Spec.Clu, u: map<Reg, Spec.Updated>, r: Reg, at: int): map<Reg, Spec.Updated> {
    if Spec.WrittenNow(c, r) && c.current == 0 && r in u && at >= 0 then u[r := u[r].(firstSelect := Some(at))] else u
  }

  /** Tables that differ in where the first select is, if at all. */
  ghost predicate SameButSelects(u: map<Reg, Spec.Updated>, v: map<Reg, Spec.Updated>) {
    u.Keys == v.Keys && forall r :: r in u ==> u[r] == v[r].(firstSelect := u[r].firstSelect)
  }

  lemma RecordFirstSame(c: Spec.Clu, r: Reg, at: nat)
    ensures SameButSelects(Spec.RecordFirst(c, r, at), c.updated)
  {
    IfConversionFrame.RecordFirstKeeps(c, r, at);
  }

  lemma RecordFirstOneMore(c: Spec.Clu, r: Reg, at: nat)
    ensures RecordOne(c, Spec.RecordFirst(c, r, at), r, at + |Spec.EndOps(c, r, {})|) == Spec.RecordFirst(c, r + 1, at)
  {
    RecordFirstSame(c, r, at);
  }

  lemma AfterCaseOfOne(next: nat, preds: seq<Reg>, c: Spec.Clu, at: nat)
    requires preds != []
    ensures Spec.AfterCase(Spec.Ctx(next, preds, [c]), at) ==
            Spec.Ctx(next, preds[..|preds| - 1],
                     [c.(updated := Spec.RecordFirst(c, next, at), current := c.current + 1)])
  {
  }

  /** What an object holds, and what it has yet to add. */
  datatype Tracked = Tracked(state: Spec.Clu, toAdd: seq<Op>)

  /** The backups are ready to be added, and everything lies within the context. */
  ghost predicate Fits(t: Tracked, location: nat, operationCount: nat, registerCount: nat) {
    && location <= operationCount
    && t.toAdd == Spec.BackupOps(t.state.updated, t.state.order)
    && (forall r :: r in t.state.order <==> r in t.state.updated)
    && (forall r :: r in t.state.updated ==> r < registerCount)
  }

  lemma StillFits(t: Tracked, location: nat, operationCount: nat, registerCount: nat, operations: nat, registers: nat)
    requires Fits(t, location, operationCount, registerCount)
    requires operationCount <= operations && registerCount <= registers
    ensures Fits(t, location, operations, registers)
  {
  }

  lemma PredicateFits(t: Tracked, p: Reg, mode: Mode, location: nat, operationCount: nat, registerCount: nat,
                      operations: nat, registers: nat)
    requires Fits(t, location, operationCount, registerCount)
    requires operationCount <= operations && registerCount <= registers
    ensures Fits(t.(state := t.state.(predicate_ := p, mode := mode)), location, operations, registers)
  {
  }

  predicate IsLast(stack: seq<ConditionalLocalUpdates>, c: ConditionalLocalUpdates) {
    stack != [] && stack[|stack| - 1] == c
  }

  /** The object after it started tracking register r. */
  ghost function WithTracked(t: Tracked, r: Reg, n: nat): Tracked {
    Tracked(t.state.(updated := t.state.updated[r := Spec.Updated(n, n + 1, {t.state.current}, None)],
                     order := t.state.order + [r]),
            t.toAdd + [Mov(n, r), Mov(n + 1, r)])
  }

  lemma TrackedFits(t: Tracked, location: nat, operations: nat, n: nat, r: Reg)
    requires Fits(t, location, operations, n) && r !in t.state.updated && r < n
    ensures Fits(WithTracked(t, r, n), location, operations, n + 2)
  {
    var u := WithTracked(t, r, n).state;
    BackupOpsSame(t.state.updated, u.updated, t.state.order);
    assert u.order[..|u.order| - 1] == t.state.order;
  }

  class ConditionalLocalUpdates {
    const context: IRContext
    var currentCase: nat
    const conditionStackDepth: nat
    var currentPredicateRegister: Reg
    var currentPredicateMode: Mode
    var updatedRegisters: map<Reg, Spec.Updated>
    /** Where the context's operation list ended when this object was created. */
    const backupInsertLocation: nat
    var operationsToAdd: seq<Op>
    /** The tracked registers by first write. */
    ghost var order: seq<Reg>

    ghost predicate Valid()
      reads this, context
    {
      Fits(Fields(), backupInsertLocation, |context.operations|, context.registerCount)
    }

    ghost function Fields(): Tracked
      reads this
    {
      Tracked(State(), operationsToAdd)
    }

    ghost function State(): Spec.Clu
      reads this
    {
      Spec.Clu(conditionStackDepth, currentCase, currentPredicateRegister, currentPredicateMode,
               updatedRegisters, order)
    }

    /** This object and its context, as the specification functions see them. */
    ghost function View(): (v: Spec.Ctx)
      reads this, context
      ensures v.stack != []
    {
      Spec.Ctx(context.registerCount, context.predicateStack, [State()])
    }

    /** The operations appended since this object was created. */
    ghost function Emitted(): seq<Op>
      requires backupInsertLocation <= |context.operations|
      reads this, context
    {
      context.operations[backupInsertLocation..]
    }

    constructor (ctx: IRContext)
      modifies ctx`registerAccessNotificationStack
      ensures Valid() && context == ctx && backupInsertLocation == |ctx.operations|
      ensures State() == Spec.Clu(old(ctx.GetConditionStackDepth()) + 1, 0, 0, Spec.Normal, map[], [])
      ensures ctx.registerAccessNotificationStack == old(ctx.registerAccessNotificationStack) + [this]
      ensures Emitted() == []
    {
      context := ctx;
      currentCase, currentPredicateRegister, currentPredicateMode := 0, 0, Spec.Normal;
      updatedRegisters, operationsToAdd, order := map[], [], [];
      backupInsertLocation := |ctx.operations|;
      conditionStackDepth := ctx.GetConditionStackDepth() + 1;
      new;
      // register for notifications
      ctx.registerAccessNotificationStack := ctx.registerAccessNotificationStack + [this];
    }

    method BeginCase(predicateRegister: Reg, mode: Mode)
      requires Valid()
      modifies this`currentPredicateRegister, this`currentPredicateMode
      modifies context`operations, context`registerCount, context`predicateStack
      ensures Valid()
      ensures context.operations == old(context.operations) + Spec.BeginCase(old(View()), predicateRegister, mode).0
      ensures View() == Spec.BeginCase(old(View()), predicateRegister, mode).1
    {
      ghost var before, operationCount, registers := Fields(), |context.operations|, context.registerCount;
      BeginCaseOfOne(context.registerCount, context.predicateStack, State(), predicateRegister, mode);
      ghost var leaf := if mode == Spec.Normal then context.registerCount else context.registerCount + 1;
      Regroup(context.operations, [Mov(context.registerCount, predicateRegister)],
              [Invert(context.registerCount + 1, context.registerCount)],
              Spec.PushPredicate(Spec.Ctx(leaf + 1, context.predicateStack, []), leaf).0);
      CopyPredicate(predicateRegister, mode);
      if mode == Spec.Normal {
        context.PushPredicate(currentPredicateRegister);
      } else {
        context.PushInversePredicate(currentPredicateRegister);
      }
      PredicateFits(before, currentPredicateRegister, mode, backupInsertLocation, operationCount, registers,
                    |context.operations|, context.registerCount);
    }

    /** A private copy, so that no case can change the predicate of a later one. */
    method CopyPredicate(predicateRegister: Reg, mode: Mode)
      modifies this`currentPredicateRegister, this`currentPredicateMode, context`registerCount, context`operations
      ensures context.registerCount == old(context.registerCount) + 1
      ensures context.operations == old(context.operations) + [Mov(old(context.registerCount), predicateRegister)]
      ensures Fields() ==
              old(Fields()).(state := old(State()).(predicate_ := old(context.registerCount), mode := mode))
    {
      currentPredicateRegister := context.AllocateRegister();
      context.operations := context.operations + [Mov(currentPredicateRegister, predicateRegister)];
      currentPredicateMode := mode;
    }

    method NotifyWrite(register: Reg, registerConditionStackDepth: nat)
      requires Valid() && register < context.registerCount
      modifies this, context`registerCount
      ensures Valid()
      ensures State() ==
              Spec.NotifyOne(old(State()), old(context.registerCount), register, registerConditionStackDepth).0
      ensures context.registerCount ==
              Spec.NotifyOne(old(State()), old(context.registerCount), register, registerConditionStackDepth).1
    {
      if registerConditionStackDepth >= conditionStackDepth {
        return;
      }
      if register in updatedRegisters {
        Note(register);
      } else {
        TrackedFits(Fields(), backupInsertLocation, |context.operations|, context.registerCount, register);
        Track(register);
      }
    }

    /** Notes that the current case writes a register that is tracked already. */
    method Note(register: Reg)
      requires Valid() && register in updatedRegisters
      modifies this`updatedRegisters
      ensures Valid()
      ensures var u := old(updatedRegisters)[register];
        updatedRegisters == old(updatedRegisters)[register := u.(cases := u.cases + {currentCase})]
    {
      ghost var before := updatedRegisters;
      var u := updatedRegisters[register];
      updatedRegisters := updatedRegisters[register := u.(cases := u.cases + {currentCase})];
      BackupOpsSame(before, updatedRegisters, order);
    }

    /** Starts tracking a register: it gets a backup and a selected value. */
    method Track(register: Reg)
      modifies this`updatedRegisters, this`operationsToAdd, this`order, context`registerCount
      ensures context.registerCount == old(context.registerCount) + 2
      ensures Fields() == WithTracked(old(Fields()), register, old(context.registerCount))
    {
      var backup := context.AllocateRegister();
      var value := context.AllocateRegister();
      updatedRegisters := updatedRegisters[register := Spec.Updated(backup, value, {currentCase}, None)];
      operationsToAdd := operationsToAdd + [Mov(backup, register), Mov(value, register)];
      order := order + [register];
    }

    method EndCase()
      requires Valid() && context.predicateStack != []
      modifies this`updatedRegisters, this`currentCase, context`operations, context`predicateStack
      ensures Valid()
      ensures context.operations == old(context.operations) + Spec.EndOps(old(State()), context.registerCount, {})
      ensures View() == Spec.AfterCase(old(View()), |old(Emitted())|)
    {
      ghost var before := updatedRegisters;
      AfterCaseOfOne(context.registerCount, context.predicateStack, State(), |Emitted()|);
      SelectAndRestore();
      BackupOpsSame(before, updatedRegisters, order);
      context.PopPredicate();
      currentCase := currentCase + 1;
    }

    /** Selects the value of every register this case wrote, and restores the register. */
    method SelectAndRestore()
      requires Valid()
      modifies this`updatedRegisters, context`operations
      ensures context.operations == old(context.operations) + Spec.EndOps(old(State()), context.registerCount, {})
      ensures updatedRegisters == Spec.RecordFirst(old(State()), context.registerCount, |old(Emitted())|)
      ensures SameButSelects(updatedRegisters, old(updatedRegisters))
    {
      ghost var c, at := State(), |Emitted()|;
      ghost var start := context.operations;
      for r := 0 to context.registerCount
        invariant context.registerCount == old(context.registerCount)
        invariant context.operations == start + Spec.EndOps(c, r, {})
        invariant updatedRegisters == Spec.RecordFirst(c, r, at)
      {
        RecordFirstSame(c, r, at);
        RecordFirstOneMore(c, r, at);
        EndOpsOneMore(start, c, r);
        SelectAndRestoreOne(r, c);
      }
      RecordFirstSame(c, context.registerCount, at);
    }

    method SelectAndRestoreOne(r: Reg, ghost c: Spec.Clu)
      requires backupInsertLocation <= |context.operations| && currentCase == c.current
      requires currentPredicateRegister == c.predicate_ && currentPredicateMode == c.mode
      requires SameButSelects(updatedRegisters, c.updated)
      modifies this`updatedRegisters, context`operations
      ensures context.operations == old(context.operations) + Spec.EndOne(c, r, {})
      ensures updatedRegisters ==
              RecordOne(c, old(updatedRegisters), r, |old(context.operations)| - backupInsertLocation)
    {
      if r in updatedRegisters && currentCase in updatedRegisters[r].cases {
        var u := updatedRegisters[r];
        if currentCase == 0 {
          // remember where the select goes
          var location := |context.operations| - backupInsertLocation;
          updatedRegisters := updatedRegisters[r := u.(firstSelect := Some(location))];
        }
        var select :=
          if currentPredicateMode == Spec.Normal then Select(u.value, currentPredicateRegister, u.value, r)
          else Select(u.value, currentPredicateRegister, r, u.value);
        context.operations := context.operations + [select];
        context.operations := context.operations + [Mov(r, u.backup)];
        assert Spec.EndOne(c, r, {}) == [select, Mov(r, u.backup)];
      }
    }

    /** Turns the first select of every register that all cases write into a mov, in place. */
    method SetComplete()
      requires Valid()
      modifies context`operations
      ensures Valid() && context.operations[..backupInsertLocation] == old(context.operations)[..backupInsertLocation]
      ensures Emitted() == Spec.SetComplete(old(Emitted()), State(), context.registerCount)
    {
      ghost var start := Emitted();
      for r := 0 to context.registerCount
        invariant context.registerCount == old(context.registerCount)
        invariant |context.operations| == |old(context.operations)|
        invariant context.operations[..backupInsertLocation] == old(context.operations)[..backupInsertLocation]
        invariant Emitted() == Spec.SetComplete(start, State(), r)
      {
        if r in updatedRegisters && |updatedRegisters[r].cases| == currentCase
           && updatedRegisters[r].firstSelect.Some? {
          var at := backupInsertLocation + updatedRegisters[r].firstSelect.value;
          if at < |context.operations| {
            context.operations := context.operations[at := Mov(updatedRegisters[r].value, r)];
          }
        }
      }
    }

    /** The destructor: splices the backups in where the object was created, copies the selected values
        back, and unregisters. */
    method Destroy()
      requires Valid() && IsLast(context.registerAccessNotificationStack, this)
      modifies context`operations, context`registerAccessNotificationStack
      ensures context.registerAccessNotificationStack + [this] == old(context.registerAccessNotificationStack)
      ensures context.operations == old(context.operations)[..backupInsertLocation] +
                                    Spec.Finish(old(Emitted()), State(), context.registerCount)
    {
      ghost var before, emitted := context.operations[..backupInsertLocation], Emitted();
      context.operations := context.operations[..backupInsertLocation] + operationsToAdd
                            + context.operations[backupInsertLocation..];
      CopyBack();
      Regroup3(before, operationsToAdd, emitted, Spec.CopyOps(updatedRegisters, context.registerCount));
      // unregister for notifications
      var registered := context.registerAccessNotificationStack;
      context.registerAccessNotificationStack := registered[..|registered| - 1];
    }

    /** Copies the selected values back. */
    method CopyBack()
      modifies context`operations
      ensures context.operations == old(context.operations) + Spec.CopyOps(updatedRegisters, context.registerCount)
    {
      ghost var start := context.operations;
      for r := 0 to context.registerCount
        invariant context.registerCount == old(context.registerCount)
        invariant context.operations == start + Spec.CopyOps(updatedRegisters, r)
      {
        if r in updatedRegisters {
          context.operations := context.operations + [Mov(r, updatedRegisters[r].value)];
        }
      }
    }
  }
}
