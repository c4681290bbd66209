/** The locked regions as the source runs them: field by field on the shared state. */
module FirmwareState {
  import opened Wrappers
  import opened Versions
  import opened Firmware

  class MinerState {
    var status: Status
    var current: string
    var staged: string
    var previous: string
    var message: string
    var sequence: nat
    var outcome: Outcome
    var next: Outcome
    var rebooting: bool

    ghost function Value(): Fw
      reads this
    {
      Fw(status, current, staged, previous, message, sequence, outcome, next, rebooting)
    }

    constructor ()
      ensures Value() == NEW_RIG
    {
      status, current, staged, previous, message := Unset, DEFAULT_VERSION, "", "", "";
      sequence, outcome, next, rebooting := 0, Unknown, Success, false;
    }

    method BeginFirmwareUpdate(newStatus: Status, newVersion: string) returns (seqno: nat)
      modifies this
      ensures Value() == Begin(old(Value()), newStatus, newVersion)
      ensures seqno == sequence
    {
      var chosen := next;
      if chosen != Failure && chosen != Attention {
        chosen := Success;
      }
      next := Success;
      outcome := chosen;
      message := "";
      status := newStatus;
      staged := newVersion;
      sequence := sequence + 1;
      return sequence;
    }

    method TransitionFirmwareStatus(seqno: nat, from: Status, to: Status) returns (moved: bool)
      modifies this
      ensures Value() == Transition(old(Value()), seqno, from, to)
      ensures moved == Live(old(Value()), seqno, from)
    {
      if rebooting || sequence != seqno || status != from {
        return false;
      }
      status := to;
      return true;
    }

    method CompleteFirmwareInstall(seqno: nat)
      modifies this
      ensures Value() == CompleteInstall(old(Value()), seqno)
    {
      if rebooting || sequence != seqno || status != Installing {
        return;
      }
      match outcome {
        case Failure =>
          status := Error;
          message := FAILURE_MESSAGE;
        case Attention =>
          status := Error;
          message := ATTENTION_MESSAGE;
        case _ =>
          status := Installed;
          message := "";
      }
    }

    method HandlePost() returns (reply: Reply)
      modifies this
      ensures (Value(), reply) == Post(old(Value()))
    {
      if rebooting {
        return Refused;
      }
      if status == Downloading || status == Installing || status == Installed {
        return Refused;
      }
      var currentVersion := current;
      if currentVersion == "" {
        currentVersion := DEFAULT_VERSION;
      }
      var installFromDownloaded := status == Downloaded;
      var seqno: nat;
      if installFromDownloaded {
        status := Installing;
        if sequence == 0 {
          sequence := sequence + 1;
        }
        if outcome == Unknown {
          outcome := Success;
        }
        seqno := sequence;
      } else {
        seqno := BeginFirmwareUpdate(Downloading, NextFirmwareVersion(currentVersion));
      }
      reply := if installFromDownloaded then RunInstall(seqno) else RunDownload(seqno);
    }

    method FinishPut(explicit: Option<string>) returns (reply: Reply)
      modifies this
      ensures (Value(), reply) == FinishUpload(old(Value()), explicit)
    {
      if rebooting {
        return Refused;
      }
      if UpdatePending(status) {
        return Refused;
      }
      var newVersion: string;
      if explicit.Some? {
        newVersion := explicit.value;
      } else {
        var currentVersion := current;
        if currentVersion == "" {
          currentVersion := DEFAULT_VERSION;
        }
        newVersion := NextFirmwareVersion(currentVersion);
      }
      var seqno := BeginFirmwareUpdate(Downloaded, newVersion);
      reply := RunStage(seqno);
    }

    method HandleReboot()
      modifies this
      ensures Value() == Reboot(old(Value()))
    {
      if status == Installed && staged != "" {
        previous := current;
        current := staged;
      }
      staged := "";
      status := Current;
      message := "";
      outcome := Unknown;
      sequence := sequence + 1;
      rebooting := true;
    }
  }
}
