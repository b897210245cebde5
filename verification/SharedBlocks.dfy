/**
 Blocks as objects that the cursors of many hosts share.  An insertion never writes to a block
 that is there: it copies the block it stands in, changes the copy, and puts the copy into its
 own list of blocks.

 A cursor here is one level of a state tree, the active one.  Blocks nested in a task list are
 values: the insertion copies references to them and never follows one.
*/
module SharedBlocks {
  import opened PlaySemantics
  import opened IteratorModel

  class BlockObject {
    var block: seq<Task>
    var rescue: seq<Task>
    var always: seq<Task>

    constructor (block: seq<Task>, rescue: seq<Task>, always: seq<Task>)
      ensures Value() == Block(block, rescue, always)
    {
      this.block, this.rescue, this.always := block, rescue, always;
    }

    ghost function Value(): Block
      reads this
    {
      Block(block, rescue, always)
    }

    method Insert(run: RunState, at: nat, ts: seq<Task>)
      modifies this
      ensures Value() == Inserted(old(Value()), run, at, ts)
    {
      if run == TASKS {
        block := Splice(block, at, ts);
      } else if run == RESCUE {
        rescue := Splice(rescue, at, ts);
      } else {
        always := Splice(always, at, ts);
      }
    }

    method Copy() returns (copy: BlockObject)
      ensures fresh(copy) && copy.Value() == Value()
    {
      copy := new BlockObject(block, rescue, always);
    }
  }

  /** The list of blocks of one host, and where the host stands in it. */
  class Cursor {
    var blocks: seq<BlockObject>
    var curBlock: nat
    var runState: RunState
    var curTask: nat  // the position in the section of the run state

    constructor (blocks: seq<BlockObject>, curBlock: nat, runState: RunState, curTask: nat)
      ensures this.blocks == blocks && this.curBlock == curBlock && this.runState == runState && this.curTask == curTask
    {
      this.blocks, this.curBlock, this.runState, this.curTask := blocks, curBlock, runState, curTask;
    }

    ghost function BlockValues(): seq<Block>
      reads this, blocks
    {
      Values(blocks)
    }

    /** `s` is the value of a cursor without child state that stands where this one stands. */
    ghost predicate StandsFor(s: State)
      reads this, blocks
    {
      && s.blocks == BlockValues() && s.run == runState && s.curBlock == curBlock
      && InSection(s) && InRange(s) && Position(s) == curTask
    }

    /** Writes to the list of this cursor and to a new object only; the list then stands for the inserted value. */
    method InsertTasks(taskList: seq<Task>, ghost s: State)
      requires StandsFor(s)
      modifies `blocks
      ensures BlockValues() == InsertHere(s, taskList).blocks
      ensures |blocks| == |old(blocks)| && fresh(blocks[curBlock])
      ensures forall i :: 0 <= i < |blocks| && i != curBlock ==> blocks[i] == old(blocks)[i]
    {
      hide Splice, Values;
      ValuesUpdate(blocks, curBlock, blocks[curBlock]);
      assert blocks[curBlock].Value() == Here(s);
      var target := blocks[curBlock].Copy();
      target.Insert(runState, curTask, taskList);
      InsertedHere(s, taskList);
      ValuesUpdate(blocks, curBlock, target);
      blocks := blocks[curBlock := target];
    }
  }

  /** A block with tasks put into the section `run`. */
  function Inserted(b: Block, run: RunState, at: nat, ts: seq<Task>): Block {
    if run == TASKS then b.(block := Splice(b.block, at, ts))
    else if run == RESCUE then b.(rescue := Splice(b.rescue, at, ts))
    else b.(always := Splice(b.always, at, ts))
  }

  lemma {:induction false} InsertedHere(s: State, ts: seq<Task>)
    requires InSection(s) && InRange(s)
    ensures InsertHere(s, ts).blocks == s.blocks[s.curBlock := Inserted(Here(s), s.run, Position(s), ts)]
  {
    hide Splice;
  }

  ghost function Values(blocks: seq<BlockObject>): (vs: seq<Block>)
    reads blocks
    ensures |vs| == |blocks|
  {
    if blocks == [] then [] else Values(blocks[..|blocks| - 1]) + [blocks[|blocks| - 1].Value()]
  }

  lemma {:induction false} ValuesUpdate(blocks: seq<BlockObject>, i: nat, b: BlockObject)
    requires i < |blocks|
    ensures Values(blocks[i := b]) == Values(blocks)[i := b.Value()] && Values(blocks)[i] == blocks[i].Value()
    decreases |blocks|
  {
    var n := |blocks| - 1;
    if i < n {
      ValuesUpdate(blocks[..n], i, b);
      assert blocks[i := b][..n] == blocks[..n][i := b];
    } else {
      assert blocks[i := b][..n] == blocks[..n];
    }
  }

  /**
   Hosts may share all their block objects: an insertion for one of them changes what it has
   left, and what none of the others has.
  */
  method InsertForOneHost(mine: Cursor, others: set<Cursor>, taskList: seq<Task>, ghost s: State)
    requires mine !in others && mine.StandsFor(s)
    modifies mine`blocks
    ensures mine.BlockValues() == InsertHere(s, taskList).blocks
    ensures forall c :: c in others ==> c.blocks == old(c.blocks) && c.BlockValues() == old(c.BlockValues())
  {
    mine.InsertTasks(taskList, s);
    forall c | c in others
      ensures c.BlockValues() == old(c.BlockValues())
    {
      Untouched(c.blocks);
    }
  }

  /** Nothing that was allocated before has changed its task lists. */
  twostate lemma Untouched(blocks: seq<BlockObject>)
    requires forall b :: b in blocks ==> b.Value() == old(b.Value())
    ensures Values(blocks) == old(Values(blocks))
    decreases |blocks|
  {
    if blocks != [] {
      Untouched(blocks[..|blocks| - 1]);
    }
  }
}
