/**
 The bound on what a host can be given: each task handed out uses up one leaf of the
 compiled blocks, whatever fails and in whatever order.
*/
module IteratorBound {
  import opened Basics
  import opened PlaySemantics
  import opened IteratorModel
  import opened IteratorInvariants

  /** Leaf tasks still ahead of a cursor, children included. */
  function Ahead(s: State): nat {
    Size(s, 0)
  }

  lemma {:induction false} AdvanceUses(s: State)
    requires InSection(s) && InRange(s) && Position(s) < |Section(s)| && Section(s)[Position(s)].Leaf?
    ensures Ahead(Advance(s)) + 1 <= Ahead(s)
  {
    hide ChildSize, TasksSize, BlocksSize, From;
    TasksSizeFrom(Section(s), Position(s), 0);
    assert Here(Advance(s)) == Here(s);
  }

  lemma {:induction false} WithChildUses(s: State, c: State)
    requires InSection(s) && InRange(s) && ActiveChild(s).Some?
    ensures Ahead(WithChild(s, Some(c))) + Ahead(ActiveChild(s).value) == Ahead(s) + Ahead(c)
  {
    assert ChildSize(Some(c), 0) == Ahead(c);
    assert ChildSize(ActiveChild(s), 0) == Ahead(ActiveChild(s).value);
    assert Here(WithChild(s, Some(c))) == Here(s);
  }

  lemma {:induction false} StepUses(s: State, env: Env, answer: Option<Turn>)
    requires Ok(s) && InRange(s) && s.run != COMPLETE
    requires answer.Some? <==> ActiveChild(s).Some?
    requires answer.Some? ==> AnswerOk(answer.value)
    requires answer.Some? && answer.value.task.Some? ==> Ahead(answer.value.state) + 1 <= Ahead(ActiveChild(s).value)
    ensures var r := Step(s, env, answer);
            Ahead(r.state) + (if r.task.Some? then 1 else 0) <= Ahead(s)
  {
    hide Ok, CheckFailed, Size;
    StepShrinks(s, env, answer, 0);
    if Step(s, env, answer).task.Some? {
      if s.run == SETUP {
        SetupUses(s);
      } else {
        OkNotHandlers(s);
        EnteredKeepsSize(s, 0);
        if answer.Some? {
          WithChildUses(Entered(s), answer.value.state);
        } else {
          AdvanceUses(Entered(s));
        }
      }
    }
  }

  lemma {:induction false} SetupUses(s: State)
    requires InRange(s) && s.run == SETUP && !s.pendingSetup
    ensures Ahead(s.(pendingSetup := true)) + 1 <= Ahead(s)
  {
  }

  /** A request that is answered with a task uses up one leaf. */
  lemma {:induction false} NextUses(s: State, env: Env)
    requires Ok(s)
    ensures Ahead(Next(s, env).state) + (if Next(s, env).task.Some? then 1 else 0) <= Ahead(s)
    decreases Size(s, 1)
  {
    hide Ok, CheckFailed, Size, Step;
    if !InRange(s) {
      OutOfRangeEmpty(s.(run := COMPLETE));
    } else if s.run != COMPLETE {
      var answer := Answer(s, env);
      NextUnfold(s, env);
      AnswersOk(s, env);
      if ActiveChild(s).Some? {
        ActiveChildOk(s);
        ActiveChildShrinks(s, 1);
        NextUses(ActiveChild(s).value, env);
      }
      StepUses(s, env, answer);
      if Step(s, env, answer).task.None? {
        StepOk(s, env, answer);
        StepShrinks(s, env, answer, 1);
        NextUses(Step(s, env, answer).state, env);
      }
    }
  }

  lemma {:induction false} OutOfRangeEmpty(s: State)
    requires !InRange(s)
    ensures Ahead(s) == 0
  {
  }

  lemma {:induction false} FailUses(s: State)
    requires Ok(s) && Settled(s)
    ensures Ahead(SetFailed(s)) <= Ahead(s)
    decreases s
  {
    hide Ok, Size;
    if ActiveChild(s).Some? {
      var c := ActiveChild(s).value;
      ActiveChildOk(s);
      FailUses(c);
      WithChildUses(s, SetFailed(c));
    } else if InSection(s) {
      FailHereShrinks(s, 0);
    } else {
      OkNotHandlers(s);
      SetupFailUses(s);
    }
  }

  lemma {:induction false} SetupFailUses(s: State)
    requires s.run == SETUP || s.run == COMPLETE
    ensures Ahead(FailHere(s)) <= Ahead(s)
  {
  }

  /** Runs without insertions. */
  predicate NoAdds(es: seq<Event>) {
    forall i :: 0 <= i < |es| ==> !es[i].Add?
  }

  function Asks(es: seq<Event>): nat {
    if es == [] then 0 else (if es[0].Ask? then 1 else 0) + Asks(es[1..])
  }

  lemma {:induction false} RunUses(s: State, es: seq<Event>)
    requires Ok(s) && Settled(s) && NoAdds(es)
    ensures |HandedOut(s, es)| + Ahead(Run(s, es)) <= Ahead(s)
    decreases |es|
  {
    hide Ok, Settled, Size, Next, SetFailed;
    if es != [] {
      var t := After(s, es[0]);
      AfterOk(s, es[0]);
      if es[0].Ask? {
        NextUses(s, es[0].env);
      } else {
        FailUses(s);
      }
      RunUses(t, es[1..]);
    }
  }

  lemma {:induction false} CompleteStays(s: State, e: Event)
    requires s.run == COMPLETE && !e.Add?
    ensures After(s, e) == s && (e.Ask? ==> Next(s, e.env).task.None?)
  {
  }

  lemma {:induction false} CompleteForever(s: State, es: seq<Event>)
    requires s.run == COMPLETE && NoAdds(es)
    ensures Run(s, es) == s
    decreases |es|
  {
    hide After;
    if es != [] {
      CompleteStays(s, es[0]);
      CompleteForever(s, es[1..]);
    }
  }

  /** Every request is answered with a task until the host is done. */
  lemma {:induction false} AsksUse(s: State, es: seq<Event>)
    requires Ok(s) && Settled(s) && NoAdds(es)
    ensures Run(s, es).run == COMPLETE || |HandedOut(s, es)| == Asks(es)
    decreases |es|
  {
    hide Ok, Settled, Next, SetFailed;
    if es != [] {
      var t := After(s, es[0]);
      AfterOk(s, es[0]);
      AsksUse(t, es[1..]);
      if es[0].Ask? {
        NextOk(s, es[0].env);
        if Next(s, es[0].env).task.None? {
          CompleteForever(t, es[1..]);
        }
      }
    }
  }

  lemma {:induction false} InitialAhead(blocks: seq<Block>)
    requires blocks != []
    ensures Ahead(Initial(blocks)) == 1 + Leaves(blocks[1..])
  {
  }

  /**
   The bound for a play: one fact-gathering task plus the leaves of the compiled blocks
   (block 0 is the setup block).  The host is complete once it has been asked more often.
  */
  lemma {:induction false} PlayIsBounded(blocks: seq<Block>, es: seq<Event>)
    requires blocks != [] && NoAdds(es)
    ensures |HandedOut(Initial(blocks), es)| <= 1 + Leaves(blocks[1..])
    ensures Asks(es) > 1 + Leaves(blocks[1..]) ==> Run(Initial(blocks), es).run == COMPLETE
  {
    hide Ok, Settled, Initial, Leaves;
    InitialOk(blocks);
    RunUses(Initial(blocks), es);
    AsksUse(Initial(blocks), es);
    InitialAhead(blocks);
  }
}
