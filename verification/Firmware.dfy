/** The firmware part of the simulated rig: what each locked region does to the state. */
module Firmware {
  import opened Wrappers
  import opened Versions

  /** FWUpdateStatus; `Unset` is the empty string a new rig starts with. */
  datatype Status = Unset | Current | Downloading | Downloaded | Installing | Installed | Error

  /** FWUpdateOutcome and FWNextUpdateOutcome; `Unknown` is the empty string. */
  datatype Outcome = Unknown | Success | Failure | Attention

  const FAILURE_MESSAGE: string := "Simulated firmware update failure"
  const ATTENTION_MESSAGE: string := "Simulated firmware update requires attention"

  datatype Fw = Fw(
    status: Status,
    current: string,
    staged: string,
    previous: string,
    message: string,
    sequence: nat,
    outcome: Outcome,
    next: Outcome,
    rebooting: bool)

  const NEW_RIG: Fw := Fw(Unset, DEFAULT_VERSION, "", "", "", 0, Unknown, Success, false)

  predicate UpdatePending(status: Status)
  {
    status.Downloading? || status.Downloaded? || status.Installing? || status.Installed?
  }

  /** Start a lifecycle and use up the armed outcome. */
  function Begin(fw: Fw, status: Status, version: string): Fw
  {
    var outcome := if fw.next.Failure? || fw.next.Attention? then fw.next else Success;
    fw.(next := Success, outcome := outcome, message := "", status := status, staged := version,
        sequence := fw.sequence + 1)
  }

  /** Is a routine of lifecycle `sequence` still allowed to act on status `from`? */
  predicate Live(fw: Fw, sequence: nat, from: Status)
  {
    !fw.rebooting && fw.sequence == sequence && fw.status == from
  }

  function Transition(fw: Fw, sequence: nat, from: Status, to: Status): Fw
  {
    if Live(fw, sequence, from) then fw.(status := to) else fw
  }

  function CompleteInstall(fw: Fw, sequence: nat): Fw
  {
    if !Live(fw, sequence, Installing) then fw
    else match fw.outcome
      case Failure => fw.(status := Error, message := FAILURE_MESSAGE)
      case Attention => fw.(status := Error, message := ATTENTION_MESSAGE)
      case _ => fw.(status := Installed, message := "")
  }

  function RunningVersion(fw: Fw): string
  {
    if fw.current == "" then DEFAULT_VERSION else fw.current
  }

  /** Which routine a request hands over to. */
  datatype Reply = Refused | RunDownload(sequence: nat) | RunStage(sequence: nat) | RunInstall(sequence: nat)

  /** POST /system/update. */
  function Post(fw: Fw): (Fw, Reply)
  {
    if fw.rebooting || fw.status.Downloading? || fw.status.Installing? || fw.status.Installed? then (fw, Refused)
    else if fw.status == Downloaded then
      var fw' := fw.(status := Installing,
                     sequence := if fw.sequence == 0 then 1 else fw.sequence,
                     outcome := if fw.outcome == Unknown then Success else fw.outcome);
      (fw', RunInstall(fw'.sequence))
    else
      var fw' := Begin(fw, Downloading, NextFirmwareVersion(RunningVersion(fw)));
      (fw', RunDownload(fw'.sequence))
  }

  /** The check a PUT makes before and again after it has read the body. */
  predicate UploadAllowed(fw: Fw)
  {
    !fw.rebooting && !UpdatePending(fw.status)
  }

  function UploadedVersion(fw: Fw, explicit: Option<string>): string
  {
    if explicit.Some? then explicit.value else NextFirmwareVersion(RunningVersion(fw))
  }

  /** The second locked region of PUT /system/update. */
  function FinishUpload(fw: Fw, explicit: Option<string>): (Fw, Reply)
  {
    if !UploadAllowed(fw) then (fw, Refused)
    else
      var fw' := Begin(fw, Downloaded, UploadedVersion(fw, explicit));
      (fw', RunStage(fw'.sequence))
  }

  function Reboot(fw: Fw): Fw
  {
    var promoted :=
      if fw.status == Installed && fw.staged != "" then fw.(previous := fw.current, current := fw.staged)
      else fw;
    promoted.(staged := "", status := Current, message := "", outcome := Unknown,
              sequence := fw.sequence + 1, rebooting := true)
  }

  function FinishReboot(fw: Fw): Fw
  {
    fw.(rebooting := false)
  }

  function Arm(fw: Fw, outcome: Outcome): Fw
  {
    fw.(next := outcome)
  }
}
