/** From the guest's helper to the vcpu's stream: printing, handing over, decoding, finding the writer
    and writing. */
module CommandService {
  import opened Commands
  import opened CommandRoundTrip
  import opened CommandLines
  import opened Trace
  import opened TraceRecorder
  import Lifecycle

  /** What becomes of a command: it is not written at all, it is written by a writer, or it is to be
      written where there is none, and the plugin goes through a null pointer. */
  datatype Outcome = Ignored | Written(writer: nat) | NullWriter

  function OutcomeOf(slot: Lifecycle.Slot, d: Decoded, mode: Mode): Outcome {
    if Deliver(d, mode).Nothing? then Ignored
    else if slot.Writer? then Written(slot.id)
    else NullWriter
  }

  /** The record after a decoded command was carried out. */
  function Served(s: Vcpu, slot: Lifecycle.Slot, d: Decoded, mode: Mode): Vcpu {
    if OutcomeOf(slot, d, mode).Written? then React(s, Commanded(Deliver(d, mode).command)) else s
  }

  /** One write through `thread_data[vcpu].output`, which nobody compares with NULL. */
  method Send(r: Lifecycle.Recorder, vcpu: nat, td: ThreadData, command: Command) returns (outcome: Outcome)
    requires r.Valid() && vcpu < r.vcpus
    modifies td
    ensures outcome == if r.recording then Written(r.outputs[vcpu].id) else NullWriter
    ensures td.View() == if r.recording then React(old(td.View()), Commanded(command)) else old(td.View())
  {
    var slot := r.Output(vcpu);
    match slot
    case NoWriter => outcome := NullWriter;
    case Writer(id) =>
      outcome := Written(id);
      td.Receive(Commanded(command));
  }

  /** `recorder_gmm`. */
  method RecorderGmm(r: Lifecycle.Recorder, vcpu: nat, td: ThreadData, name: string, segment: Word, arg: Word,
                     mode: Mode)
    returns (outcome: Outcome)
    requires r.Valid() && vcpu < r.vcpus
    modifies td
    ensures outcome == OutcomeOf(r.outputs[vcpu], Decoded.Gmm(name, segment, arg), mode)
    ensures td.View() == Served(old(td.View()), r.outputs[vcpu], Decoded.Gmm(name, segment, arg), mode)
    ensures !Known(name) ==> td.View() == old(td.View()) && outcome == Ignored
  {
    outcome := Ignored;
    if name == "create" {
      outcome := Send(r, vcpu, td, Command.Gmm(0, segment, arg));
    } else if name == "assign" {
      outcome := Send(r, vcpu, td, Command.Gmm(1, segment, arg));
    } else if name == "delete" {
      outcome := Send(r, vcpu, td, Command.Gmm(2, segment, arg));
    } else if name == "message" {
      if mode.Detailed? {
        outcome := Send(r, vcpu, td, Message(10, segment, arg));
      }
    } else if name == "sync" {
      if mode.Detailed? {
        outcome := Send(r, vcpu, td, Message(35, 0, 0));
      }
    }
  }

  /** The gmm branch of `qemu_plugin_control`, on a command line from the guest. */
  method PluginControl(r: Lifecycle.Recorder, vcpu: nat, td: ThreadData, cmd: string, mode: Mode)
    returns (outcome: Outcome)
    requires r.Valid() && vcpu < r.vcpus
    modifies td
    ensures outcome == OutcomeOf(r.outputs[vcpu], Receive(cmd), mode)
    ensures td.View() == Served(old(td.View()), r.outputs[vcpu], Receive(cmd), mode)
  {
    var d := Receive(cmd);
    if d.Gmm? {
      outcome := RecorderGmm(r, vcpu, td, d.command, d.segment, d.arg, mode);
    } else {
      outcome := Ignored;
    }
  }

  /** Nothing else in the stream can pass for the command. */
  lemma ServedIffDelivered(s: Vcpu, slot: Lifecycle.Slot, d: Decoded, mode: Mode, command: Command)
    ensures Served(s, slot, d, mode) == Emit(s, [Control(command)])
            <==> slot.Writer? && Deliver(d, mode) == Delivered(command)
  {
    var written := Emit(s, [Control(command)]).output;
    assert |written| == |s.output| + 1 && written[|s.output|] == Control(command);
    if Deliver(d, mode).Delivered? {
      var other := React(s, Commanded(Deliver(d, mode).command)).output;
      assert other[|s.output|] == Control(Deliver(d, mode).command);
    }
  }

  /** `seg_create` in the guest adds exactly its command to the stream, if and only if there is a
      recording, both numbers are below 2^63 and the text fits; without a recording it goes through a
      null pointer. */
  method CreateSegment(r: Lifecycle.Recorder, vcpu: nat, td: ThreadData, addr: Word, size: Word, mode: Mode)
    returns (outcome: Outcome)
    requires r.Valid() && vcpu < r.vcpus
    requires addr < 0x1_0000_0000_0000_0000 && size < 0x1_0000_0000_0000_0000
    modifies td
    ensures td.View() == Emit(old(td.View()), [Control(Command.Gmm(0, addr, size))])
            <==> r.recording && addr < 0x8000_0000_0000_0000 && size < 0x8000_0000_0000_0000
                 && |CreateText(addr, size)| <= 49
    ensures outcome == if r.recording then Written(r.outputs[vcpu].id) else NullWriter
  {
    var cmd := SegCreate(addr, size);
    CreateRoundTrip(addr, size, mode);
    ServedIffDelivered(td.View(), r.outputs[vcpu], Receive(cmd), mode, Command.Gmm(0, addr, size));
    outcome := PluginControl(r, vcpu, td, cmd, mode);
  }

  /** `seg_assign`, likewise, if and only if there is a recording, the address is below 2^63 and the
      policy not negative; a negative policy changes nothing at all. */
  method AssignSegment(r: Lifecycle.Recorder, vcpu: nat, td: ThreadData, addr: Word, policy: int, mode: Mode)
    returns (outcome: Outcome)
    requires r.Valid() && vcpu < r.vcpus
    requires addr < 0x1_0000_0000_0000_0000 && -0x8000_0000 <= policy < 0x8000_0000
    modifies td
    ensures td.View() == Emit(old(td.View()), [Control(Command.Gmm(1, addr, Unsigned(policy)))])
            <==> r.recording && addr < 0x8000_0000_0000_0000 && policy >= 0
    ensures policy < 0 ==> td.View() == old(td.View())
    ensures outcome == if policy < 0 then Ignored else if r.recording then Written(r.outputs[vcpu].id) else NullWriter
  {
    var cmd := SegAssign(addr, policy);
    AssignRoundTrip(addr, policy, mode);
    ServedIffDelivered(td.View(), r.outputs[vcpu], Receive(cmd), mode, Command.Gmm(1, addr, Unsigned(policy)));
    outcome := PluginControl(r, vcpu, td, cmd, mode);
  }

  /** `seg_delete`, likewise, if and only if there is a recording and the address is below 2^63. */
  method DeleteSegment(r: Lifecycle.Recorder, vcpu: nat, td: ThreadData, addr: Word, mode: Mode)
    returns (outcome: Outcome)
    requires r.Valid() && vcpu < r.vcpus
    requires addr < 0x1_0000_0000_0000_0000
    modifies td
    ensures td.View() == Emit(old(td.View()), [Control(Command.Gmm(2, addr, 0))])
            <==> r.recording && addr < 0x8000_0000_0000_0000
    ensures outcome == if r.recording then Written(r.outputs[vcpu].id) else NullWriter
  {
    var cmd := SegDelete(addr);
    DeleteRoundTrip(addr, mode);
    ServedIffDelivered(td.View(), r.outputs[vcpu], Receive(cmd), mode, Command.Gmm(2, addr, 0));
    outcome := PluginControl(r, vcpu, td, cmd, mode);
  }

  /** `user_msg`, likewise, in the detailed mode only; in the others it changes nothing, recording or not. */
  method SendMessage(r: Lifecycle.Recorder, vcpu: nat, td: ThreadData, p: Word, q: Word, mode: Mode)
    returns (outcome: Outcome)
    requires r.Valid() && vcpu < r.vcpus
    requires p < 0x1_0000_0000_0000_0000 && q < 0x1_0000_0000_0000_0000
    modifies td
    ensures td.View() == Emit(old(td.View()), [Control(Message(10, p, q))])
            <==> r.recording && mode.Detailed? && p < 0x8000_0000_0000_0000 && q < 0x8000_0000_0000_0000
                 && |MessageText(p, q)| <= 49
    ensures !mode.Detailed? ==> td.View() == old(td.View())
    ensures outcome == if !mode.Detailed? then Ignored
                       else if r.recording then Written(r.outputs[vcpu].id) else NullWriter
  {
    var cmd := UserMsg(p, q);
    MessageRoundTrip(p, q, mode);
    ServedIffDelivered(td.View(), r.outputs[vcpu], Receive(cmd), mode, Message(10, p, q));
    outcome := PluginControl(r, vcpu, td, cmd, mode);
  }

  /** `gmm_sync` adds its message in the detailed mode while there is a recording, and nothing
      otherwise. */
  method SyncMemory(r: Lifecycle.Recorder, vcpu: nat, td: ThreadData, mode: Mode) returns (outcome: Outcome)
    requires r.Valid() && vcpu < r.vcpus
    modifies td
    ensures td.View() == if r.recording && mode.Detailed? then Emit(old(td.View()), [Control(Message(35, 0, 0))])
                         else old(td.View())
    ensures outcome == if !mode.Detailed? then Ignored
                       else if r.recording then Written(r.outputs[vcpu].id) else NullWriter
  {
    var cmd := GmmSync();
    SyncRoundTrip(cmd, mode);
    outcome := PluginControl(r, vcpu, td, cmd, mode);
  }
}
