/**
 * The pipeline branch of `main` (sish.c:105-200), as descriptor bookkeeping:
 * which pipes exist, which ends each process holds, where each stage's
 * standard input and output point, and which stages are waited for. The
 * processes themselves (fork, exec, the data flowing through the pipes) are
 * not modelled; each forked stage is recorded as it stands just before
 * `execvp`.
 */
module Pipeline {
  import opened Opt

  /** The pipe whose read end stage `i` takes as standard input (the test at sish.c:145). */
  function StdinOf(i: nat, pipeCount: nat): (r: Option<nat>)
    ensures r.Some? ==> r.value < pipeCount
  {
    if i != 0 && i <= pipeCount then Some(i - 1) else None
  }

  /** The pipe whose write end stage `i` takes as standard output (the test at sish.c:154). */
  function StdoutOf(i: nat, pipeCount: nat): (r: Option<nat>)
    ensures r.Some? ==> r.value < pipeCount
  {
    if i < pipeCount then Some(i) else None
  }

  /** Pipe k is written by stage k alone and read by stage k + 1 alone. */
  lemma OneWriterOneReader(pipeCount: nat, k: nat, i: nat)
    requires k < pipeCount && i <= pipeCount
    ensures StdoutOf(i, pipeCount) == Some(k) <==> i == k
    ensures StdinOf(i, pipeCount) == Some(k) <==> i == k + 1
  {
  }

  /**
   * The stages form a chain: the first reads the shell's input, the last
   * writes the shell's output, and every other stage reads the pipe its left
   * neighbour writes.
   */
  lemma StagesFormAChain(pipeCount: nat, i: nat)
    requires i <= pipeCount
    ensures StdinOf(i, pipeCount) == None <==> i == 0
    ensures StdoutOf(i, pipeCount) == None <==> i == pipeCount
    ensures 0 < i ==> StdinOf(i, pipeCount) == StdoutOf(i - 1, pipeCount)
  {
  }

  /** One process's view of the pipes `fd[0..pipeCount-1]` and of its standard streams. */
  class FdTable {
    var readOpen: array<bool>   // fd[k][0] is open in this process
    var writeOpen: array<bool>  // fd[k][1] is open in this process
    var stdin: Option<nat>      // pipe duplicated onto standard input; None: inherited
    var stdout: Option<nat>     // pipe duplicated onto standard output; None: inherited

    ghost predicate Valid()
      reads this
    {
      readOpen.Length == writeOpen.Length && readOpen != writeOpen
    }

    function Pipes(): nat
      reads this
    {
      readOpen.Length
    }

    ghost predicate AllOpen()
      reads this, readOpen, writeOpen
    {
      Valid() && forall k :: 0 <= k < Pipes() ==> readOpen[k] && writeOpen[k]
    }

    ghost predicate AllClosed()
      reads this, readOpen, writeOpen
    {
      Valid() && forall k :: 0 <= k < Pipes() ==> !readOpen[k] && !writeOpen[k]
    }

    /** The controlling process before any pipe exists: room for `pipeCount` pipes. */
    constructor (pipeCount: nat)
      ensures Valid() && Pipes() == pipeCount && AllClosed()
      ensures stdin == None && stdout == None
      ensures fresh(readOpen) && fresh(writeOpen)
    {
      readOpen := new bool[pipeCount](_ => false);
      writeOpen := new bool[pipeCount](_ => false);
      stdin, stdout := None, None;
    }

    /** `pipe(fd[k])`: both ends of pipe k become open. */
    method Pipe(k: nat)
      requires Valid() && k < Pipes()
      modifies readOpen, writeOpen
      ensures readOpen[..] == old(readOpen[..])[k := true]
      ensures writeOpen[..] == old(writeOpen[..])[k := true]
    {
      readOpen[k] := true;
      writeOpen[k] := true;
    }

    /** `fork`: the child starts with a copy of every descriptor of its parent. */
    method Fork() returns (child: FdTable)
      requires Valid()
      ensures fresh(child) && fresh(child.readOpen) && fresh(child.writeOpen)
      ensures child.Valid() && child.Pipes() == Pipes()
      ensures child.readOpen[..] == readOpen[..] && child.writeOpen[..] == writeOpen[..]
      ensures child.stdin == stdin && child.stdout == stdout
    {
      child := new FdTable(Pipes());
      var k := 0;
      while k < Pipes()
        invariant 0 <= k <= Pipes()
        invariant fresh(child.readOpen) && fresh(child.writeOpen)
        invariant child.Valid() && child.Pipes() == Pipes()
        invariant forall j :: 0 <= j < k ==>
                    child.readOpen[j] == readOpen[j] && child.writeOpen[j] == writeOpen[j]
        invariant child.stdin == None && child.stdout == None
      {
        child.readOpen[k] := readOpen[k];
        child.writeOpen[k] := writeOpen[k];
        k := k + 1;
      }
      child.stdin, child.stdout := stdin, stdout;
    }

    /** `dup2(fd[k][0], STDIN_FILENO)`, which needs the read end open. */
    method RedirectStdin(k: nat)
      requires Valid() && k < Pipes() && readOpen[k]
      modifies this`stdin
      ensures stdin == Some(k)
    {
      stdin := Some(k);
    }

    /** `dup2(fd[k][1], STDOUT_FILENO)`, which needs the write end open. */
    method RedirectStdout(k: nat)
      requires Valid() && k < Pipes() && writeOpen[k]
      modifies this`stdout
      ensures stdout == Some(k)
    {
      stdout := Some(k);
    }

    /** The loop that closes both ends of every pipe (sish.c:162-167 in a child, sish.c:183-188 in the parent). */
    method CloseAll()
      requires Valid()
      modifies readOpen, writeOpen
      ensures AllClosed()
    {
      var pipeid := 0;
      while pipeid < Pipes()
        invariant 0 <= pipeid <= Pipes()
        invariant forall k :: 0 <= k < pipeid ==> !readOpen[k] && !writeOpen[k]
      {
        readOpen[pipeid] := false;
        writeOpen[pipeid] := false;
        pipeid := pipeid + 1;
      }
    }
  }

  /** A forked stage as it stands when it calls `execvp`. */
  datatype Stage = Stage(
    command: string,          // its '|'-separated segment of the line
    stdin: Option<nat>,
    stdout: Option<nat>,
    openReads: seq<bool>,     // read ends of the pipes it still holds
    openWrites: seq<bool>)    // write ends of the pipes it still holds

  /** Stage `s` holds a reference to the write end of pipe k. */
  predicate WritesTo(s: Stage, k: nat)
  {
    s.stdout == Some(k) || (k < |s.openWrites| && s.openWrites[k])
  }

  /** Stage `s` holds a reference to the read end of pipe k. */
  predicate ReadsFrom(s: Stage, k: nat)
  {
    s.stdin == Some(k) || (k < |s.openReads| && s.openReads[k])
  }

  /** A stage whose descriptors are wired as stage `i` of `pipeCount + 1` must be. */
  ghost predicate Wired(s: Stage, i: nat, pipeCount: nat)
  {
    s.stdin == StdinOf(i, pipeCount) && s.stdout == StdoutOf(i, pipeCount) &&
    |s.openReads| == |s.openWrites| == pipeCount &&
    forall k :: 0 <= k < pipeCount ==> !s.openReads[k] && !s.openWrites[k]
  }

  /**
   * Once every stage is wired, pipe k has exactly one writer, stage k, and one
   * reader, stage k + 1: no stage keeps a stray end that would hold a reader
   * open past the end of its input.
   */
  lemma {:induction false} WiredPipesHaveOneWriterOneReader(children: seq<Stage>, pipeCount: nat)
    requires |children| == pipeCount + 1
    requires forall i :: 0 <= i < |children| ==> Wired(children[i], i, pipeCount)
    ensures forall i, k :: 0 <= i < |children| && 0 <= k < pipeCount ==>
              (WritesTo(children[i], k) <==> i == k) &&
              (ReadsFrom(children[i], k) <==> i == k + 1)
  {
    forall i, k | 0 <= i < |children| && 0 <= k < pipeCount
      ensures (WritesTo(children[i], k) <==> i == k) && (ReadsFrom(children[i], k) <==> i == k + 1)
    {
      assert Wired(children[i], i, pipeCount);
      OneWriterOneReader(pipeCount, k, i);
    }
  }

  /** The loop at sish.c:120-125: `pipe(fd[count - 1])` for count from `pipeCount` down to 1. */
  method CreatePipes(parent: FdTable)
    requires parent.AllClosed()
    modifies parent.readOpen, parent.writeOpen
    ensures parent.AllOpen()
  {
    var count := parent.Pipes();
    while count > 0
      invariant 0 <= count <= parent.Pipes()
      invariant forall k :: 0 <= k < parent.Pipes() ==>
                  parent.readOpen[k] == (count <= k) && parent.writeOpen[k] == (count <= k)
    {
      parent.Pipe(count - 1);
      count := count - 1;
    }
  }

  /**
   * What the child forked for stage `count` does before `execvp`
   * (sish.c:141-167): take the read end of pipe `count - 1` as standard input
   * unless it is the first stage, the write end of pipe `count` as standard
   * output unless it is the last, then close both ends of every pipe.
   */
  method SpawnStage(parent: FdTable, command: string, count: nat, pipeCount: nat) returns (s: Stage)
    requires parent.AllOpen() && parent.Pipes() == pipeCount
    requires parent.stdin == None && parent.stdout == None
    ensures s.command == command && Wired(s, count, pipeCount)
  {
    var child := parent.Fork();
    if count != 0 && count <= pipeCount {
      child.RedirectStdin(count - 1);
    }
    if count < pipeCount {
      child.RedirectStdout(count);
    }
    child.CloseAll();
    s := Stage(command, child.stdin, child.stdout, child.readOpen[..], child.writeOpen[..]);
  }

  /** The loop at sish.c:191-198: wait for `cpid[0]` up to `cpid[pipeCount]`, in that order. */
  method WaitAll(cpid: array<nat>, pipeCount: nat) returns (waited: seq<nat>)
    requires pipeCount < cpid.Length
    ensures waited == cpid[..pipeCount + 1]
  {
    waited := [];
    var cpidCount := 0;
    while cpidCount <= pipeCount
      invariant 0 <= cpidCount <= pipeCount + 1
      invariant waited == cpid[..cpidCount]
    {
      waited := waited + [cpid[cpidCount]];
      cpidCount := cpidCount + 1;
    }
  }

  /**
   * The pipeline branch of `main`: create the pipes, fork one stage per entry
   * of `stages` up to its NULL, close every pipe end in the parent, and wait
   * for the stages in order. `stages` is the buffer `strsplt` filled with the
   * line's segments; `cpid` has room for `pipeCount + 1` stages, so the buffer
   * must hold exactly that many. A stage's process handle is its index.
   */
  method Launch(stages: array<Option<string>>, pipeCount: nat)
    returns (parent: FdTable, children: seq<Stage>, waited: seq<nat>)
    requires pipeCount + 1 < stages.Length
    requires forall i :: 0 <= i <= pipeCount ==> stages[i].Some?
    requires stages[pipeCount + 1] == None
    ensures fresh(parent) && parent.Pipes() == pipeCount && parent.AllClosed()
    ensures |children| == pipeCount + 1
    ensures forall i :: 0 <= i < |children| ==>
              children[i].command == stages[i].value && Wired(children[i], i, pipeCount)
    ensures forall i, k :: 0 <= i < |children| && 0 <= k < pipeCount ==>
              (WritesTo(children[i], k) <==> i == k) &&
              (ReadsFrom(children[i], k) <==> i == k + 1)
    ensures waited == seq(pipeCount + 1, i => i)
  {
    parent := new FdTable(pipeCount);
    CreatePipes(parent);

    var cpid := new nat[pipeCount + 1];
    children := [];
    var count := 0;
    while stages[count] != None
      invariant 0 <= count <= pipeCount + 1
      invariant |children| == count
      invariant fresh(parent.readOpen) && fresh(parent.writeOpen)
      invariant parent.AllOpen() && parent.Pipes() == pipeCount
      invariant parent.stdin == None && parent.stdout == None
      invariant forall i :: 0 <= i < count ==> cpid[i] == i
      invariant forall i :: 0 <= i < count ==>
                  children[i].command == stages[i].value && Wired(children[i], i, pipeCount)
      decreases pipeCount + 1 - count
    {
      var stage := SpawnStage(parent, stages[count].value, count, pipeCount);
      children := children + [stage];
      cpid[count] := count;
      count := count + 1;
    }

    parent.CloseAll();
    waited := WaitAll(cpid, pipeCount);
    WiredPipesHaveOneWriterOneReader(children, pipeCount);
  }
}
