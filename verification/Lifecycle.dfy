/** Starting and stopping a recording (`host/trace/control.cc`): the writers that are opened,
    aborted and deleted, the trace files, and the reset that `stop` defers. */
module Lifecycle {

  datatype TraceFile = Fifo(vcpu: nat) | Response(vcpu: nat)

  /** `thread_data[i].output`: no writer, or the writer with a number of its own. */
  datatype Slot = NoWriter | Writer(id: nat)

  /** The file names `recorder_start` collects for the first `n` vcpus. */
  function Files(n: nat): (files: seq<TraceFile>)
    ensures |files| == 2 * n
  {
    if n == 0 then [] else Files(n - 1) + [Fifo(n - 1), Response(n - 1)]
  }

  /** How often a file is listed. */
  function Times(files: seq<TraceFile>, f: TraceFile): nat { multiset(files)[f] }

  lemma TwoMore(files: seq<TraceFile>, n: nat, f: TraceFile)
    ensures Times(files + [Fifo(n), Response(n)], f) == Times(files, f) + if f.vcpu == n then 1 else 0
  {
    assert multiset(files + [Fifo(n), Response(n)]) == multiset(files) + multiset{Fifo(n), Response(n)};
  }

  /** Every vcpu's two files are listed, each once, and nothing else. */
  lemma {:induction false} FilesListEveryFile(n: nat, f: TraceFile)
    ensures Times(Files(n), f) == if f.vcpu < n then 1 else 0
  {
    if n > 0 {
      FilesListEveryFile(n - 1, f);
      TwoMore(Files(n - 1), n - 1, f);
    }
  }

  predicate Live(outputs: seq<Slot>, id: nat) {
    exists i :: 0 <= i < |outputs| && outputs[i] == Writer(id)
  }

  /** Writer `id` was aborted and deleted once, unless some vcpu still holds it; nobody holds a
      writer that was never opened, and no two vcpus hold the same one. */
  predicate Accounts(outputs: seq<Slot>, closed: seq<nat>) {
    && (forall i :: 0 <= i < |outputs| && outputs[i].Writer? ==> outputs[i].id < |closed|)
    && (forall i, j :: 0 <= i < j < |outputs| && outputs[i].Writer? ==> outputs[i] != outputs[j])
    && (forall id :: 0 <= id < |closed| ==> closed[id] == if Live(outputs, id) then 0 else 1)
  }

  predicate AllSlots(outputs: seq<Slot>, writer: bool) {
    forall i :: 0 <= i < |outputs| ==> outputs[i].Writer? == writer
  }

  lemma AccountsAfterClose(outputs: seq<Slot>, closed: seq<nat>, i: nat)
    requires Accounts(outputs, closed) && i < |outputs| && outputs[i].Writer?
    ensures var id := outputs[i].id; Accounts(outputs[i := NoWriter], closed[id := closed[id] + 1])
  {
    var id := outputs[i].id;
    var outputs' := outputs[i := NoWriter];
    forall x | 0 <= x < |closed| ensures Live(outputs', x) <==> Live(outputs, x) && x != id {
      if Live(outputs, x) && x != id {
        var j :| 0 <= j < |outputs| && outputs[j] == Writer(x);
        assert outputs'[j] == Writer(x);
      }
    }
    assert Live(outputs, id);
  }

  lemma AccountsAfterOpen(outputs: seq<Slot>, closed: seq<nat>, i: nat)
    requires Accounts(outputs, closed) && i < |outputs| && outputs[i].NoWriter?
    ensures Accounts(outputs[i := Writer(|closed|)], closed + [0])
  {
    var outputs' := outputs[i := Writer(|closed|)];
    forall x | 0 <= x < |closed| ensures Live(outputs', x) <==> Live(outputs, x) {
      if Live(outputs, x) {
        var j :| 0 <= j < |outputs| && outputs[j] == Writer(x);
        assert outputs'[j] == Writer(x);
      }
    }
    assert outputs'[i] == Writer(|closed|);
  }

  /** `Gmm` is a gmm command that is to be written to the stream of its vcpu. */
  datatype Command = Start | Stop(vcpu: nat) | RunDeferred | Gmm(vcpu: nat)

  /** What the commands before decide: whether there is a recording, and how many resets will run. */
  datatype Phase = Phase(recording: bool, scheduled: nat)

  function Obey(p: Phase, vcpus: nat, c: Command): Phase {
    match c
    case Start => p.(recording := true)
    case Stop(vcpu) => if vcpu < vcpus && p.recording then p.(scheduled := p.scheduled + 1) else p
    case RunDeferred => if p.scheduled > 0 then Phase(false, p.scheduled - 1) else p
    case Gmm(_) => p
  }

  function After(p: Phase, vcpus: nat, commands: seq<Command>): Phase {
    if commands == [] then p
    else Obey(After(p, vcpus, commands[..|commands| - 1]), vcpus, commands[|commands| - 1])
  }

  /** A reset that was left to run does run here. */
  predicate ResetsAt(p: Phase, vcpus: nat, commands: seq<Command>, k: nat)
    requires k < |commands|
  {
    commands[k].RunDeferred? && After(p, vcpus, commands[..k]).scheduled > 0
  }

  /** No reset runs from the `from`th command on. */
  predicate Undisturbed(p: Phase, vcpus: nat, commands: seq<Command>, from: nat)
  {
    forall k :: from <= k < |commands| ==> !ResetsAt(p, vcpus, commands, k)
  }

  /** There is a recording exactly when one was started, or was there before, and no reset ran since,
      no matter who asked for that reset. */
  lemma {:induction false} RecordingMeans(p: Phase, vcpus: nat, commands: seq<Command>)
    ensures After(p, vcpus, commands).recording
            <==> (p.recording && Undisturbed(p, vcpus, commands, 0))
                 || exists j :: 0 <= j < |commands| && commands[j].Start? && Undisturbed(p, vcpus, commands, j)
  {
    if commands != [] {
      var n := |commands| - 1;
      var before := commands[..n];
      RecordingMeans(p, vcpus, before);
      assert forall k :: 0 <= k < n ==> before[..k] == commands[..k];
      assert forall k :: 0 <= k < n ==> (ResetsAt(p, vcpus, before, k) <==> ResetsAt(p, vcpus, commands, k));
      forall j | 0 <= j <= n
        ensures Undisturbed(p, vcpus, commands, j)
                <==> Undisturbed(p, vcpus, before, j) && !ResetsAt(p, vcpus, commands, n)
      {
      }
      if commands[n].Start? {
        assert Undisturbed(p, vcpus, commands, n);
      }
    }
  }

  /** Every gmm command comes while there is a recording. */
  predicate FindWriters(p: Phase, vcpus: nat, commands: seq<Command>) {
    forall k :: 0 <= k < |commands| && IsFor(commands[k], vcpus) ==> After(p, vcpus, commands[..k]).recording
  }

  predicate IsFor(c: Command, vcpus: nat) {
    c.Gmm? && c.vcpu < vcpus
  }

  class Recorder {
    const vcpus: nat
    var recording: bool
    var traceFiles: seq<TraceFile>
    var outputs: seq<Slot>
    /** Resets asked of the emulator and not yet run. */
    var scheduled: nat
    /** The writers an `End` was written to, in order: a history of the run. */
    var ended: seq<nat>
    /** For every writer ever opened, how often it was aborted and deleted: a history of the run. */
    var closed: seq<nat>

    /** While recording there are two files and a writer for every vcpu, otherwise none; and every
        writer was closed exactly once unless it is in use. */
    ghost predicate Valid()
      reads this
    {
      && |outputs| == vcpus && AllSlots(outputs, recording)
      && traceFiles == (if recording then Files(vcpus) else [])
      && Accounts(outputs, closed)
    }

    constructor (vcpus: nat)
      ensures Valid() && this.vcpus == vcpus && !recording && scheduled == 0 && closed == [] && ended == []
    {
      this.vcpus := vcpus;
      recording, traceFiles, outputs, scheduled := false, [], seq(vcpus, _ => NoWriter), 0;
      closed, ended := [], [];
    }

    /** `closeFile`; it may be called for a vcpu that has no writer. */
    method CloseFile(i: nat)
      requires i < |outputs| && Accounts(outputs, closed)
      modifies this`outputs, this`closed
      ensures outputs == old(outputs)[i := NoWriter] && Accounts(outputs, closed) && |closed| == |old(closed)|
    {
      var output := outputs[i];
      ghost var was := outputs;
      outputs := outputs[i := NoWriter];
      if output.Writer? {
        AccountsAfterClose(was, closed, i);
        closed := closed[output.id := closed[output.id] + 1];
      } else {
        assert outputs == was;
      }
    }

    /** `openFile`. */
    method OpenFile(i: nat)
      requires i < |outputs| && Accounts(outputs, closed)
      modifies this`outputs, this`closed
      ensures outputs == old(outputs)[i := Writer(|old(closed)|)]
      ensures Accounts(outputs, closed) && |closed| == |old(closed)| + 1
    {
      if outputs[i].Writer? {
        CloseFile(i);
      }
      AccountsAfterOpen(outputs, closed, i);
      outputs := outputs[i := Writer(|closed|)];
      closed := closed + [0];
    }

    /** `thread_data_reset`: forgets every writer, which is harmless because there is none. */
    method ResetRecords()
      requires |outputs| == vcpus && AllSlots(outputs, false)
      modifies this`outputs
      ensures outputs == old(outputs)
    {
      for i := 0 to vcpus
        invariant outputs == old(outputs)
      {
        outputs := outputs[i := NoWriter];
      }
    }

    /** `recorder_start`. */
    method Start()
      requires Valid()
      modifies this
      ensures Valid() && recording && scheduled == old(scheduled) && ended == old(ended)
      ensures if old(recording) then outputs == old(outputs) && closed == old(closed)
              else |closed| == |old(closed)| + vcpus
                   && forall i :: 0 <= i < vcpus ==> outputs[i] == Writer(|old(closed)| + i)
    {
      if recording {
        return;
      }
      ResetRecords();
      for i := 0 to vcpus
        invariant traceFiles == Files(i)
        invariant outputs == old(outputs) && closed == old(closed)
        invariant scheduled == old(scheduled) && ended == old(ended)
      {
        traceFiles := traceFiles + [Fifo(i)];
        traceFiles := traceFiles + [Response(i)];
      }
      for i := 0 to vcpus
        invariant |outputs| == vcpus && Accounts(outputs, closed) && |closed| == |old(closed)| + i
        invariant traceFiles == Files(vcpus) && scheduled == old(scheduled) && ended == old(ended)
        invariant forall k :: 0 <= k < i ==> outputs[k] == Writer(|old(closed)| + k)
        invariant forall k :: i <= k < vcpus ==> outputs[k].NoWriter?
      {
        OpenFile(i);
      }
      recording := true;
    }

    /** `recorder_stop`: while recording, writes an `End` to the caller's stream and defers a reset. */
    method Stop(threadid: nat)
      requires Valid() && threadid < vcpus
      modifies this`scheduled, this`ended
      ensures Valid() && scheduled == old(scheduled) + (if recording then 1 else 0)
      ensures if recording then outputs[threadid].Writer? && ended == old(ended) + [outputs[threadid].id]
              else ended == old(ended)
    {
      if recording {
        ended := ended + [outputs[threadid].id];
        scheduled := scheduled + 1;
      }
    }

    /** The deferred reset, which the emulator runs exclusively: every writer is gone and was closed
        exactly once. */
    method DeferredReset()
      requires Valid() && scheduled > 0
      modifies this
      ensures Valid() && !recording && scheduled == old(scheduled) - 1 && ended == old(ended)
      ensures |closed| == |old(closed)| && forall id :: 0 <= id < |closed| ==> closed[id] == 1
    {
      for i := 0 to vcpus
        invariant |outputs| == vcpus && Accounts(outputs, closed) && |closed| == |old(closed)|
        invariant forall k :: 0 <= k < i ==> outputs[k].NoWriter?
        invariant scheduled == old(scheduled) && ended == old(ended)
      {
        CloseFile(i);
      }
      traceFiles := [];
      recording := false;
      scheduled := scheduled - 1;
    }

    /** `thread_data[vcpu].output`, as a gmm command finds it. */
    method Output(vcpu: nat) returns (slot: Slot)
      requires Valid() && vcpu < vcpus
      ensures slot == outputs[vcpu] && (slot.Writer? <==> recording)
      ensures slot.Writer? ==> slot.id < |closed| && closed[slot.id] == 0
    {
      slot := outputs[vcpu];
      if slot.Writer? {
        assert Live(outputs, slot.id);
      }
    }

    ghost function Now(): Phase
      reads this
    {
      Phase(recording, scheduled)
    }

    /** One command; a gmm command that finds no writer is not carried out. */
    method Carry(c: Command) returns (done: bool)
      requires Valid()
      modifies this
      ensures Valid() && Now() == Obey(old(Now()), vcpus, c)
      ensures done <==> (IsFor(c, vcpus) ==> old(recording))
    {
      done := true;
      match c
      case Start => Start();
      case Stop(vcpu) => if vcpu < vcpus { Stop(vcpu); }
      case RunDeferred => if scheduled > 0 { DeferredReset(); }
      case Gmm(vcpu) =>
        if vcpu < vcpus {
          var slot := Output(vcpu);
          done := slot.Writer?;
        }
    }

    /** Any sequence of starts, stops, deferred resets and gmm commands keeps the accounts.  It ends
        early at a gmm command that finds no writer, and no command finds none exactly when every one
        of them comes while there is a recording. */
    method Run(commands: seq<Command>) returns (done: nat)
      requires Valid()
      modifies this
      ensures Valid()
      ensures !recording ==> forall id :: 0 <= id < |closed| ==> closed[id] == 1
      ensures |traceFiles| == if recording then 2 * vcpus else 0
      ensures done <= |commands| && Now() == After(old(Now()), vcpus, commands[..done])
      ensures FindWriters(old(Now()), vcpus, commands[..done])
      ensures done < |commands| ==> IsFor(commands[done], vcpus) && !recording
      ensures done == |commands| <==> FindWriters(old(Now()), vcpus, commands)
    {
      done := 0;
      ghost var p := Now();
      var going := true;
      while going && done < |commands|
        invariant Valid() && done <= |commands| && Now() == After(p, vcpus, commands[..done])
        invariant FindWriters(p, vcpus, commands[..done])
        invariant !going ==> done < |commands| && IsFor(commands[done], vcpus) && !recording
        decreases |commands| - done, going
      {
        OneMore(p, vcpus, commands[..done], commands[done]);
        assert commands[..done + 1] == commands[..done] + [commands[done]];
        going := Carry(commands[done]);
        if going { done := done + 1; }
      }
      assert done == |commands| ==> commands[..done] == commands;
      NobodyLives(outputs, closed);
    }

    /** Starting a recording that nobody stops, and whatever else happens: it is still the same
        recording at the end exactly when no reset was left to run at its start, or none did run. */
    method StartAndRun(commands: seq<Command>)
      requires Valid() && !recording && vcpus > 0
      requires forall k :: 0 <= k < |commands| ==> !commands[k].Stop?
      modifies this
      ensures Valid() && ended == old(ended)
      ensures recording && outputs[0] == Writer(|old(closed)|) <==> old(scheduled) == 0 || RunDeferred !in commands
    {
      Start();
      for k := 0 to |commands|
        invariant Valid() && ended == old(ended) && |closed| >= |old(closed)| + vcpus
        invariant if old(scheduled) == 0 || RunDeferred !in commands[..k]
                  then recording && outputs[0] == Writer(|old(closed)|) && scheduled == old(scheduled)
                  else recording ==> outputs[0] != Writer(|old(closed)|)
      {
        assert commands[..k + 1] == commands[..k] + [commands[k]];
        match commands[k]
        case Start => Start();
        case RunDeferred => if scheduled > 0 { DeferredReset(); }
        case Gmm(_) =>
      }
      assert commands[..|commands|] == commands;
    }
  }

  lemma OneMore(p: Phase, vcpus: nat, commands: seq<Command>, c: Command)
    ensures After(p, vcpus, commands + [c]) == Obey(After(p, vcpus, commands), vcpus, c)
    ensures FindWriters(p, vcpus, commands + [c])
            <==> FindWriters(p, vcpus, commands) && (IsFor(c, vcpus) ==> After(p, vcpus, commands).recording)
  {
    var more := commands + [c];
    assert more[..|commands|] == commands;
    assert forall k :: 0 <= k < |commands| ==> more[..k] == commands[..k];
  }

  lemma NobodyLives(outputs: seq<Slot>, closed: seq<nat>)
    requires Accounts(outputs, closed)
    ensures AllSlots(outputs, false) ==> forall id :: 0 <= id < |closed| ==> closed[id] == 1
  {
  }

  /** While recording the fifo and the response of every vcpu are listed once, and nothing else. */
  lemma RecordingListsEveryFile(r: Recorder, f: TraceFile)
    requires r.Valid()
    ensures Times(r.traceFiles, f) == if r.recording && f.vcpu < r.vcpus then 1 else 0
  {
    if r.recording { FilesListEveryFile(r.vcpus, f); }
  }

  /** A run in which a recording ends that nobody stopped.  Two stops defer two resets; if a new
      recording starts between the resets, the second ends it: its writers are closed and it is no
      longer recording. */
  method SecondStopEndsTheNextRecording(r: Recorder, threadid: nat)
    requires r.Valid() && r.recording && r.scheduled == 0 && threadid < r.vcpus
    modifies r
    ensures r.Valid() && !r.recording && |r.closed| == |old(r.closed)| + r.vcpus
  {
    r.Stop(threadid);
    r.Stop(threadid);
    r.DeferredReset();
    r.Start();
    assert r.recording && r.scheduled == 1;
    r.DeferredReset();
  }
}
