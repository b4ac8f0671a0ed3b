/** The passthrough-initialisation handshake: wake the flight controller's
    command line, check its serial-receiver configuration, find the UART the
    receiver is on, and hand that UART over with `serialpassthrough`.

    `Handshake` states the whole run as a function of the device's replies;
    `PassthroughInit` is the step-by-step procedure over the link, proved to
    agree with it; the lemmas state what the run promises. */
module Passthrough {
  import opened Wrappers
  import opened Text
  import opened Decimal
  import opened SerialListing
  import opened Link

  /** How a run ends. `AlreadyActive` is benign: the device is already in
      passthrough or bootloader mode, or shows no command line. `Refused`
      means the configuration is wrong or the receiver's UART was not found.
      `Success` means the passthrough command went out. */
  datatype Outcome = AlreadyActive(msg: string) | Refused(msg: string) | Success

  /** The baud rate asked for when the command line gives none. */
  const DefaultBaudrate := 420000

  const WakeUpProbe := "#\r\n"
  const BootloaderToken := "CCC"
  const SerialCommand := "serial\r\n"

  const MsgBootloader := "Passthrough already enabled and bootloader active"
  const MsgNoCli := "No CLI available. Already in passthrough mode?"
  const MsgRxNotFound := "!!! RX Serial not found !!!!\n  Check configuration and try again..."

  const ProviderMismatch := "serialrx_provider != CRSF"
  const InvertedMismatch := "serialrx_inverted != OFF"
  const HalfDuplexMismatch := "serialrx_halfduplex != OFF/AUTO"

  const ErrorHeader := "\n\n [ERROR] Invalid serial RX configuration detected:\n"
  const ErrorFooter := "\n    Please change the configuration and try again!\n"

  // ---------------------------------------------------------------------
  // Wake-up

  /** What the reply to the wake-up probe says about the device. */
  datatype Wake = BootloaderActive | NoCli | CliPrompt

  /** Classifies the (unstripped) reply to the probe: the bootloader banner
      anywhere wins; otherwise a command line must have answered with a
      reply ending in its `#` prompt. */
  function ClassifyWakeUp(reply: string): Wake {
    var start := Strip(reply);
    if Contains(start, BootloaderToken) then BootloaderActive
    else if start == "" || !EndsWith(start, "#") then NoCli
    else CliPrompt
  }

  // ---------------------------------------------------------------------
  // Configuration checks

  /** The accepted values of one check: one string or several. */
  datatype Accept = Single(value: string) | AnyOf(values: seq<string>)

  /** A single accepted string is a list of one. */
  function AcceptedValues(expected: Accept): seq<string> {
    match expected
    case Single(v) => [v]
    case AnyOf(vs) => vs
  }

  /** The query for one `serialrx_` setting. */
  function GetCommand(config: string): string {
    "get serialrx_" + config + "\r\n"
  }

  /** A check passes when the stripped reply contains ` = v` for some
      accepted value `v`. */
  predicate CheckPasses(reply: string, expected: Accept) {
    exists v | v in AcceptedValues(expected) :: Contains(Strip(reply), " = " + v)
  }

  /** The accepted receiver protocols: CRSF or ELRS on a full-duplex link,
      GHST on a half-duplex one. */
  function ProviderAccept(halfDuplex: bool): Accept {
    if halfDuplex then Single("GHST") else AnyOf(["CRSF", "ELRS"])
  }

  const InvertedAccept := Single("OFF")
  const HalfDuplexAccept := AnyOf(["OFF", "AUTO"])

  /** What each check accepts, written out: `CRSF` or `ELRS` as the provider
      on a full-duplex link and only `GHST` on a half-duplex one, `OFF` for
      inversion, and `OFF` or `AUTO` for half-duplex. */
  lemma AcceptedSettings(reply: string)
    ensures var line := Strip(reply);
            (CheckPasses(reply, ProviderAccept(false)) <==> Contains(line, " = CRSF") || Contains(line, " = ELRS"))
            && (CheckPasses(reply, ProviderAccept(true)) <==> Contains(line, " = GHST"))
            && (CheckPasses(reply, InvertedAccept) <==> Contains(line, " = OFF"))
            && (CheckPasses(reply, HalfDuplexAccept) <==> Contains(line, " = OFF") || Contains(line, " = AUTO"))
  {
    CheckPassesSingle(reply, "GHST");
    CheckPassesSingle(reply, "OFF");
    CheckPassesPair(reply, "CRSF", "ELRS");
    CheckPassesPair(reply, "OFF", "AUTO");
    assert " = " + "CRSF" == " = CRSF" && " = " + "ELRS" == " = ELRS" && " = " + "GHST" == " = GHST";
    assert " = " + "OFF" == " = OFF" && " = " + "AUTO" == " = AUTO";
  }

  /** A single accepted string behaves as a list of one: the check passes
      exactly when the stripped reply contains ` = v`. */
  lemma CheckPassesSingle(reply: string, v: string)
    ensures CheckPasses(reply, Single(v)) <==> Contains(Strip(reply), " = " + v)
  {
    if Contains(Strip(reply), " = " + v) {
      assert v in AcceptedValues(Single(v));
    }
  }

  /** With two accepted strings the check passes exactly when the stripped
      reply contains ` = ` followed by either. */
  lemma CheckPassesPair(reply: string, v: string, w: string)
    ensures CheckPasses(reply, AnyOf([v, w]))
            <==> Contains(Strip(reply), " = " + v) || Contains(Strip(reply), " = " + w)
  {
    var vs := AcceptedValues(AnyOf([v, w]));
    if Contains(Strip(reply), " = " + v) {
      assert v in vs;
    }
    if Contains(Strip(reply), " = " + w) {
      assert w in vs;
    }
  }

  /** Where a mismatch's check comes in the order the checks run. */
  function CheckRank(failure: string): nat {
    if failure == ProviderMismatch then 0 else if failure == InvertedMismatch then 1 else 2
  }

  /** The mismatches of the three checks, collected as they run. */
  function ConfigFailures(providerOk: bool, invertedOk: bool, halfDuplexOk: bool): seq<string> {
    (if providerOk then [] else [ProviderMismatch])
    + (if invertedOk then [] else [InvertedMismatch])
    + (if halfDuplexOk then [] else [HalfDuplexMismatch])
  }

  /** The collected mismatches are each failed check's, and only those, in
      the order the checks run. */
  lemma FailuresInCheckOrder(providerOk: bool, invertedOk: bool, halfDuplexOk: bool)
    ensures var r := ConfigFailures(providerOk, invertedOk, halfDuplexOk);
            (ProviderMismatch in r <==> !providerOk)
            && (InvertedMismatch in r <==> !invertedOk)
            && (HalfDuplexMismatch in r <==> !halfDuplexOk)
            && (forall f :: f in r ==> f == ProviderMismatch || f == InvertedMismatch || f == HalfDuplexMismatch)
            && (r == [] <==> providerOk && invertedOk && halfDuplexOk)
            && forall i, j :: 0 <= i < j < |r| ==> CheckRank(r[i]) < CheckRank(r[j])
  {
  }

  /** The mismatches for the replies to the three checks. */
  function ReplyFailures(providerReply: string, invertedReply: string, halfDuplexReply: string,
                         halfDuplex: bool): seq<string> {
    ConfigFailures(CheckPasses(providerReply, ProviderAccept(halfDuplex)),
                   CheckPasses(invertedReply, InvertedAccept),
                   CheckPasses(halfDuplexReply, HalfDuplexAccept))
  }

  /** The line of the refusal message that names one mismatch. */
  function BangLine(failure: string): string {
    "    !!! " + failure + " !!!\n"
  }

  /** The lines naming each mismatch, in order. */
  function BangLines(failures: seq<string>): string {
    if failures == [] then ""
    else BangLines(failures[..|failures| - 1]) + BangLine(failures[|failures| - 1])
  }

  /** The refusal message for a wrong configuration. */
  function ConfigErrorText(failures: seq<string>): string {
    ErrorHeader + BangLines(failures) + ErrorFooter
  }

  /** Every mismatch has its own line among the bang lines. */
  lemma {:induction false} BangLinesNameEach(failures: seq<string>)
    ensures forall f :: f in failures ==> Contains(BangLines(failures), BangLine(f))
  {
    if failures != [] {
      var init, last := failures[..|failures| - 1], failures[|failures| - 1];
      assert failures == init + [last];
      BangLinesNameEach(init);
      forall f | f in failures ensures Contains(BangLines(failures), BangLine(f)) {
        if f in init {
          ContainsWithin("", BangLines(init), BangLine(last), BangLine(f));
          assert "" + BangLines(init) + BangLine(last) == BangLines(failures);
        } else {
          ContainsSelf(BangLine(last));
          ContainsWithin(BangLines(init), BangLine(last), "", BangLine(last));
          assert BangLines(init) + BangLine(last) + "" == BangLines(failures);
        }
      }
    }
  }

  /** The refusal message opens with the error header, names every mismatch
      on a `!!! ... !!!` line of its own, and closes with the advice to fix
      the configuration. */
  lemma ConfigErrorNamesEach(failures: seq<string>)
    ensures var msg := ConfigErrorText(failures);
            StartsWith(msg, ErrorHeader) && EndsWith(msg, ErrorFooter)
            && forall f :: f in failures ==> Contains(msg, BangLine(f))
  {
    var msg := ConfigErrorText(failures);
    BangLinesNameEach(failures);
    forall f | f in failures ensures Contains(msg, BangLine(f)) {
      ContainsWithin(ErrorHeader, BangLines(failures), ErrorFooter, BangLine(f));
    }
    assert msg[..|ErrorHeader|] == ErrorHeader;
    assert msg[|msg| - |ErrorFooter|..] == ErrorFooter;
  }

  /** Builds the refusal message line by line. */
  method BuildConfigError(failures: seq<string>) returns (error: string)
    ensures error == ConfigErrorText(failures)
  {
    error := ErrorHeader;
    for i := 0 to |failures|
      invariant error == ErrorHeader + BangLines(failures[..i])
    {
      assert failures[..i + 1][..i] == failures[..i];
      error := error + BangLine(failures[i]);
    }
    assert failures[..|failures|] == failures;
    error := error + ErrorFooter;
  }

  // ---------------------------------------------------------------------
  // The handshake

  /** The final command: the receiver's UART and the requested baud rate. */
  function PassthroughCommand(index: string, baudrate: int): string {
    "serialpassthrough " + index + " " + IntToString(baudrate)
  }

  /** A whole run, or the rest of one: how it ends, what was written, which
      replies were left unread, and whether the port was closed. */
  datatype Trace = Trace(outcome: Outcome, writes: seq<Sent>, rest: seq<string>, closed: bool)

  /** `t`, after `sent` was written before it. */
  function WrittenBefore(sent: seq<Sent>, t: Trace): Trace {
    t.(writes := sent + t.writes)
  }

  /** The run against a device that answers with `replies`. Reads take the
      replies in order: the wake-up reply first, then one reply per check,
      then the `serial` listing. */
  function Handshake(replies: seq<string>, baudrate: int, halfDuplex: bool, debug: bool): Trace {
    var probe := [Sent(WakeUpProbe, halfDuplex)];
    match ClassifyWakeUp(ReplyAt(replies, 0))
    case BootloaderActive => Trace(AlreadyActive(MsgBootloader), probe, Drop(replies, 1), false)
    case NoCli => Trace(AlreadyActive(MsgNoCli), probe, Drop(replies, 1), false)
    case CliPrompt => WrittenBefore(probe, ConfigStage(Drop(replies, 1), baudrate, halfDuplex, debug))
  }

  /** The writes of the three configuration checks, in order. */
  const CheckWrites := [Sent(GetCommand("provider"), false), Sent(GetCommand("inverted"), false),
                        Sent(GetCommand("halfduplex"), false)]

  /** The run from the configuration checks on; `replies` starts with the
      reply to the first check. */
  function ConfigStage(replies: seq<string>, baudrate: int, halfDuplex: bool, debug: bool): Trace {
    var failures := ReplyFailures(ReplyAt(replies, 0), ReplyAt(replies, 1), ReplyAt(replies, 2), halfDuplex);
    if failures != [] then Trace(Refused(ConfigErrorText(failures)), CheckWrites, Drop(replies, 3), false)
    else WrittenBefore(CheckWrites, UartStage(Drop(replies, 3), baudrate, debug))
  }

  /** The run from the `serial` listing on; `listing` starts with its first
      line. */
  function UartStage(listing: seq<string>, baudrate: int, debug: bool): Trace {
    var listed := [Sent(SerialCommand, false)];
    var (index, used) := ScanLines(Kinds(listing), debug, "");
    if index == "" then Trace(Refused(MsgRxNotFound), listed, listing[used..], false)
    else Trace(Success, listed + [Sent(PassthroughCommand(index, baudrate) + "\n", false)], listing[used..], true)
  }

  /** Once the command line has answered, the run is the probe followed by
      the configuration stage. */
  lemma HandshakeAfterPrompt(replies: seq<string>, baudrate: int, halfDuplex: bool, debug: bool)
    requires ClassifyWakeUp(ReplyAt(replies, 0)) == CliPrompt
    ensures var t := ConfigStage(Drop(replies, 1), baudrate, halfDuplex, debug);
            Handshake(replies, baudrate, halfDuplex, debug) == t.(writes := [Sent(WakeUpProbe, halfDuplex)] + t.writes)
  {
  }

  /** How `ConfigStage` ends, by whether a check failed. */
  lemma ConfigStageCases(replies: seq<string>, baudrate: int, halfDuplex: bool, debug: bool)
    ensures var failures := ReplyFailures(ReplyAt(replies, 0), ReplyAt(replies, 1), ReplyAt(replies, 2), halfDuplex);
            var t := ConfigStage(replies, baudrate, halfDuplex, debug);
            if failures != [] then t == Trace(Refused(ConfigErrorText(failures)), CheckWrites, Drop(replies, 3), false)
            else t == WrittenBefore(CheckWrites, UartStage(Drop(replies, 3), baudrate, debug))
  {
  }

  /** The configuration stage writes the three queries first. */
  lemma ConfigStageWrites(replies: seq<string>, baudrate: int, halfDuplex: bool, debug: bool)
    ensures var t := ConfigStage(replies, baudrate, halfDuplex, debug);
            |t.writes| >= 3 && t.writes[..3] == CheckWrites
  {
    ConfigStageCases(replies, baudrate, halfDuplex, debug);
    UartStageCases(Drop(replies, 3), baudrate, debug);
    var t := ConfigStage(replies, baudrate, halfDuplex, debug);
    assert |CheckWrites| == 3;
    assert t.writes[..3] == CheckWrites;
  }

  /** How `UartStage` ends, by what the scan found. */
  lemma UartStageCases(listing: seq<string>, baudrate: int, debug: bool)
    ensures var scan := ScanLines(Kinds(listing), debug, "");
            var t := UartStage(listing, baudrate, debug);
            scan.1 <= |listing| && t.rest == listing[scan.1..]
            && (scan.0 == "" ==> t.outcome == Refused(MsgRxNotFound) && t.writes == [Sent(SerialCommand, false)] && !t.closed)
            && (scan.0 != "" ==> t.outcome == Success && t.closed
                                 && t.writes == [Sent(SerialCommand, false), Sent(PassthroughCommand(scan.0, baudrate) + "\n", false)])
  {
  }

  /** One configuration check on the link: query the setting, read one
      reply, and look for each accepted value in turn. */
  method ValidateSerialRx(link: ScriptedLink, config: string, expected: Accept) returns (found: bool)
    requires !link.closed
    modifies link
    ensures found == CheckPasses(NextLine(old(link.pending)), expected)
    ensures link.pending == AfterRead(old(link.pending))
    ensures link.written == old(link.written) + [Sent(GetCommand(config), false)]
    ensures !link.closed
  {
    found := false;
    var keys := AcceptedValues(expected);
    link.Write(GetCommand(config), false);
    var line := link.ReadLine();
    line := Strip(line);
    var i := 0;
    while i < |keys|
      invariant 0 <= i <= |keys| && !found
      invariant forall j :: 0 <= j < i ==> !Contains(line, " = " + keys[j])
    {
      var key := " = " + keys[i];
      if Contains(line, key) {
        found := true;
        break;
      }
      i := i + 1;
    }
  }

  /** The three configuration checks, all run, in order; the mismatches
      are collected in that order. */
  method CheckConfiguration(link: ScriptedLink, halfDuplex: bool) returns (serialCheck: seq<string>)
    requires !link.closed
    modifies link
    ensures var replies := old(link.pending);
            serialCheck == ReplyFailures(ReplyAt(replies, 0), ReplyAt(replies, 1), ReplyAt(replies, 2), halfDuplex)
            && link.pending == Drop(replies, 3)
    ensures link.written == old(link.written) + CheckWrites
    ensures !link.closed
  {
    ghost var replies := link.pending;
    ghost var before := link.written;
    ReadAfterDrop(replies, 0);
    ReadAfterDrop(replies, 1);
    ReadAfterDrop(replies, 2);
    serialCheck := [];
    var ok1 := ValidateSerialRx(link, "provider", ProviderAccept(halfDuplex));
    if !ok1 {
      serialCheck := serialCheck + [ProviderMismatch];
    }
    assert serialCheck == ConfigFailures(ok1, true, true);
    var ok2 := ValidateSerialRx(link, "inverted", InvertedAccept);
    if !ok2 {
      serialCheck := serialCheck + [InvertedMismatch];
    }
    assert serialCheck == ConfigFailures(ok1, ok2, true);
    var ok3 := ValidateSerialRx(link, "halfduplex", HalfDuplexAccept);
    if !ok3 {
      serialCheck := serialCheck + [HalfDuplexMismatch];
    }
    assert link.written == before + CheckWrites;
    assert serialCheck == ConfigFailures(ok1, ok2, ok3);
  }

  /** The UART scan on the link: ask for the `serial` listing and read it
      line by line until a line ends it or, without `debug`, until the first
      Rx line. */
  method DetectRxUart(link: ScriptedLink, debug: bool) returns (index: string)
    requires !link.closed
    modifies link
    ensures var (found, used) := ScanLines(Kinds(old(link.pending)), debug, "");
            index == found && used <= |old(link.pending)| && link.pending == old(link.pending)[used..]
    ensures link.written == old(link.written) + [Sent(SerialCommand, false)]
    ensures !link.closed
  {
    index := "";
    link.Write(SerialCommand, false);
    ghost var listing := link.pending;
    ghost var kinds := Kinds(listing);
    ghost var final := ScanLines(kinds, debug, "");
    ghost var listed := link.written;
    ghost var read: nat := 0;
    while true
      invariant read <= |listing| && link.pending == listing[read..]
      invariant !link.closed && link.written == listed
      invariant ScanLines(kinds[read..], debug, index).0 == final.0
      invariant read + ScanLines(kinds[read..], debug, index).1 == final.1
      decreases |listing| - read
    {
      var line := link.ReadLine();
      line := Strip(line);
      if line == "" || Contains(line, "#") {
        break;
      }
      assert kinds[read..][0] == Classify(listing[read]);
      if StartsWith(line, "serial") {
        var config := Search(line, 0);
        if config.Some? && config.value.functionCode == RxFunctionCode {
          index := config.value.index;
          if !debug {
            read := read + 1;
            break;
          }
        }
      }
      assert kinds[read..][1..] == kinds[read + 1..];
      read := read + 1;
    }
  }

  /** The handshake on a freshly opened port whose device answers with
      `replies`. */
  method PassthroughInit(replies: seq<string>, requestedBaudrate: int, halfDuplex: bool, debug: bool)
    returns (outcome: Outcome, link: ScriptedLink)
    ensures fresh(link)
    ensures var t := Handshake(replies, requestedBaudrate, halfDuplex, debug);
            outcome == t.outcome && link.written == t.writes && link.pending == t.rest
            && link.closed == t.closed
  {
    link := new ScriptedLink(replies);
    link.Write(WakeUpProbe, halfDuplex);
    var start := link.ReadLine();
    ReadAfterDrop(replies, 0);
    match ClassifyWakeUp(start)
    case BootloaderActive =>
      outcome := AlreadyActive(MsgBootloader);
    case NoCli =>
      outcome := AlreadyActive(MsgNoCli);
    case CliPrompt =>
      HandshakeAfterPrompt(replies, requestedBaudrate, halfDuplex, debug);
      ghost var rest := ConfigStage(Drop(replies, 1), requestedBaudrate, halfDuplex, debug);
      ghost var t := Handshake(replies, requestedBaudrate, halfDuplex, debug);
      assert link.written == [Sent(WakeUpProbe, halfDuplex)];
      outcome := ConfigureAndHandOver(link, requestedBaudrate, halfDuplex, debug, rest);
      assert t.writes == [Sent(WakeUpProbe, halfDuplex)] + rest.writes;
  }

  /** Regrouping the write log after one more write. */
  lemma AppendOne(w: seq<Sent>, checks: seq<Sent>, a: Sent)
    ensures w + checks + [a] == w + (checks + [a])
  {
  }

  /** Regrouping the write log after two more writes. */
  lemma AppendTwo(w: seq<Sent>, checks: seq<Sent>, a: Sent, b: Sent)
    ensures w + checks + [a] + [b] == w + (checks + [a, b])
  {
  }

  /** The handshake once the command line has answered: the configuration
      checks, the UART scan and the passthrough command. */
  method ConfigureAndHandOver(link: ScriptedLink, requestedBaudrate: int, halfDuplex: bool, debug: bool,
                              ghost t: Trace)
    returns (outcome: Outcome)
    requires !link.closed
    requires t == ConfigStage(link.pending, requestedBaudrate, halfDuplex, debug)
    modifies link
    ensures outcome == t.outcome && link.written == old(link.written) + t.writes && link.pending == t.rest
            && link.closed == t.closed
  {
    ghost var replies := link.pending;
    ConfigStageCases(replies, requestedBaudrate, halfDuplex, debug);
    var serialCheck := CheckConfiguration(link, halfDuplex);
    if serialCheck != [] {
      var error := BuildConfigError(serialCheck);
      outcome := Refused(error);
      return;
    }
    ghost var listing := link.pending;
    UartStageCases(listing, requestedBaudrate, debug);
    var index := DetectRxUart(link, debug);
    if index == "" {
      outcome := Refused(MsgRxNotFound);
      AppendOne(old(link.written), CheckWrites, Sent(SerialCommand, false));
      return;
    }
    var command := PassthroughCommand(index, requestedBaudrate) + "\n";
    link.Write(command, false);
    link.Close();
    AppendTwo(old(link.written), CheckWrites, Sent(SerialCommand, false), Sent(command, false));
    outcome := Success;
  }

  // ---------------------------------------------------------------------
  // Entry point

  /** The baud rate the entry point asks for: its first argument read as an
      integer, or the default when there is no argument or it is not an
      integer. */
  function RequestedBaudrate(argv: seq<string>): int {
    if |argv| >= 2 && ParseInt(argv[1]).Some? then ParseInt(argv[1]).value else DefaultBaudrate
  }

  /** The number written as the second argument is the baud rate asked for,
      whatever follows it, when it has no more digits than `int()` takes. */
  lemma BaudrateFromArgument(program: string, baudrate: int, more: seq<string>)
    requires |NatToString(Magnitude(baudrate))| <= MaxStrDigits
    ensures RequestedBaudrate([program, IntToString(baudrate)] + more) == baudrate
  {
    ParseIntRoundTrip(baudrate);
  }

  /** Without an argument, or with a blank one, the default of 420000 baud
      is asked for. */
  lemma BaudrateDefault(argv: seq<string>)
    requires |argv| < 2 || Strip(argv[1]) == []
    ensures RequestedBaudrate(argv) == 420000
  {
    if |argv| >= 2 {
      ParseIntRejectsBlank(argv[1]);
    }
  }

  /** An argument that starts with one of the separators U+001C to U+001F
      makes `int()` raise, and the default of 420000 baud is asked for. */
  lemma BaudrateAfterSeparator(argv: seq<string>)
    requires |argv| >= 2 && |argv[1]| > 0 && '\U{1C}' <= argv[1][0] <= '\U{1F}'
    ensures RequestedBaudrate(argv) == 420000
  {
    assert argv[1] == [argv[1][0]] + argv[1][1..];
    SeparatorNotSkipped(argv[1][0], argv[1][1..]);
  }

  /** An argument of more digits than `int()` takes makes it raise, and the
      default of 420000 baud is asked for. */
  lemma BaudrateTooLong(argv: seq<string>)
    requires |argv| >= 2 && AllDigits(Strip(argv[1])) && |Strip(argv[1])| > MaxStrDigits
    ensures RequestedBaudrate(argv) == 420000
  {
    TooManyDigits(argv[1]);
  }

  // ---------------------------------------------------------------------
  // What a run promises

  /** The listing names the receiver's UART on a line before the one that
      ends it. */
  predicate HasRxLine(listing: seq<string>) {
    exists i :: 0 <= i < ListingLength(Kinds(listing)) && Classify(listing[i]).RxUart?
  }

  /** A device that answers nothing at all (every read times out) shows no
      command line. */
  lemma SilentDevice(baudrate: int, halfDuplex: bool, debug: bool)
    ensures Handshake([], baudrate, halfDuplex, debug)
            == Trace(AlreadyActive(MsgNoCli), [Sent("#\r\n", halfDuplex)], [], false)
  {
    assert Strip("") == "";
  }

  /** The wake-up reply decides whether the checks run. The bootloader
      banner `CCC` anywhere in it, or a reply that is not a prompt ending in
      `#`, ends the run with only the probe written and the port left open;
      otherwise the three queries follow the probe, in order. */
  lemma WakeUpDecides(replies: seq<string>, baudrate: int, halfDuplex: bool, debug: bool)
    ensures var t := Handshake(replies, baudrate, halfDuplex, debug);
            var start := Strip(ReplyAt(replies, 0));
            var probe := Sent("#\r\n", halfDuplex);
            (Contains(start, "CCC") ==> t == Trace(AlreadyActive(MsgBootloader), [probe], Drop(replies, 1), false))
            && (!Contains(start, "CCC") && (start == "" || !EndsWith(start, "#"))
                ==> t == Trace(AlreadyActive(MsgNoCli), [probe], Drop(replies, 1), false))
            && (!Contains(start, "CCC") && start != "" && EndsWith(start, "#")
                ==> |t.writes| >= 4
                    && t.writes[..4] == [probe, Sent("get serialrx_provider\r\n", false),
                                         Sent("get serialrx_inverted\r\n", false),
                                         Sent("get serialrx_halfduplex\r\n", false)])
  {
    var start := Strip(ReplyAt(replies, 0));
    if Contains(start, "CCC") {
      assert ClassifyWakeUp(ReplyAt(replies, 0)) == BootloaderActive;
    } else if start == "" || !EndsWith(start, "#") {
      assert ClassifyWakeUp(ReplyAt(replies, 0)) == NoCli;
    } else {
      assert ClassifyWakeUp(ReplyAt(replies, 0)) == CliPrompt;
      PromptWrites(replies, baudrate, halfDuplex, debug);
    }
  }

  /** Taking a prefix after one leading write. */
  lemma PrefixAfter(first: Sent, w: seq<Sent>, n: nat)
    requires n <= |w|
    ensures ([first] + w)[..n + 1] == [first] + w[..n]
  {
  }

  /** The three queries, spelt out. */
  lemma QueryTexts()
    ensures CheckWrites == [Sent("get serialrx_provider\r\n", false), Sent("get serialrx_inverted\r\n", false),
                            Sent("get serialrx_halfduplex\r\n", false)]
  {
    assert GetCommand("provider") == "get serialrx_provider\r\n";
    assert GetCommand("inverted") == "get serialrx_inverted\r\n";
    assert GetCommand("halfduplex") == "get serialrx_halfduplex\r\n";
  }

  /** The probe and the three queries, spelt out. */
  lemma ProbeThenQueries(halfDuplex: bool)
    ensures [Sent(WakeUpProbe, halfDuplex)] + CheckWrites
            == [Sent("#\r\n", halfDuplex), Sent("get serialrx_provider\r\n", false),
                Sent("get serialrx_inverted\r\n", false), Sent("get serialrx_halfduplex\r\n", false)]
  {
    QueryTexts();
  }

  /** After a prompt, the probe is followed by the three queries. */
  lemma PromptWrites(replies: seq<string>, baudrate: int, halfDuplex: bool, debug: bool)
    requires ClassifyWakeUp(ReplyAt(replies, 0)) == CliPrompt
    ensures var t := Handshake(replies, baudrate, halfDuplex, debug);
            |t.writes| >= 4
            && t.writes[..4] == [Sent("#\r\n", halfDuplex), Sent("get serialrx_provider\r\n", false),
                                 Sent("get serialrx_inverted\r\n", false),
                                 Sent("get serialrx_halfduplex\r\n", false)]
  {
    HandshakeAfterPrompt(replies, baudrate, halfDuplex, debug);
    var c := ConfigStage(Drop(replies, 1), baudrate, halfDuplex, debug);
    ConfigStageWrites(Drop(replies, 1), baudrate, halfDuplex, debug);
    var t := Handshake(replies, baudrate, halfDuplex, debug);
    assert t.writes == [Sent(WakeUpProbe, halfDuplex)] + c.writes;
    PrefixAfter(Sent(WakeUpProbe, halfDuplex), c.writes, 3);
    assert t.writes[..4] == [Sent(WakeUpProbe, halfDuplex)] + CheckWrites;
    ProbeThenQueries(halfDuplex);
  }

  /** When the prompt answered and every check passed, the run is the
      probe and the three queries followed by the UART scan on the rest. */
  lemma HandshakeReachesScan(replies: seq<string>, baudrate: int, halfDuplex: bool, debug: bool)
    requires ClassifyWakeUp(ReplyAt(replies, 0)) == CliPrompt
    requires ReplyFailures(ReplyAt(replies, 1), ReplyAt(replies, 2), ReplyAt(replies, 3), halfDuplex) == []
    ensures var u := UartStage(Drop(replies, 4), baudrate, debug);
            var t := Handshake(replies, baudrate, halfDuplex, debug);
            t.outcome == u.outcome && t.closed == u.closed && t.rest == u.rest
            && t.writes == [Sent(WakeUpProbe, halfDuplex)] + (CheckWrites + u.writes)
  {
    HandshakeAfterPrompt(replies, baudrate, halfDuplex, debug);
    DropShift(replies, 1, 0);
    DropShift(replies, 1, 1);
    DropShift(replies, 1, 2);
    DropShift(replies, 1, 3);
    ConfigStageCases(Drop(replies, 1), baudrate, halfDuplex, debug);
  }

  /** A wrong configuration is refused after the three queries, with a
      message that names every mismatch; the port stays open and nothing
      more is written. */
  lemma ConfigRefused(replies: seq<string>, baudrate: int, halfDuplex: bool, debug: bool)
    requires ClassifyWakeUp(ReplyAt(replies, 0)) == CliPrompt
    requires ReplyFailures(ReplyAt(replies, 1), ReplyAt(replies, 2), ReplyAt(replies, 3), halfDuplex) != []
    ensures var t := Handshake(replies, baudrate, halfDuplex, debug);
            var failures := ReplyFailures(ReplyAt(replies, 1), ReplyAt(replies, 2), ReplyAt(replies, 3), halfDuplex);
            t.outcome == Refused(ConfigErrorText(failures)) && !t.closed && |t.writes| == 4 && t.rest == Drop(replies, 4)
            && StartsWith(t.outcome.msg, ErrorHeader) && EndsWith(t.outcome.msg, ErrorFooter)
            && forall f :: f in failures ==> Contains(t.outcome.msg, BangLine(f))
  {
    HandshakeAfterPrompt(replies, baudrate, halfDuplex, debug);
    DropShift(replies, 1, 0);
    DropShift(replies, 1, 1);
    DropShift(replies, 1, 2);
    DropShift(replies, 1, 3);
    ConfigStageCases(Drop(replies, 1), baudrate, halfDuplex, debug);
    ConfigErrorNamesEach(ReplyFailures(ReplyAt(replies, 1), ReplyAt(replies, 2), ReplyAt(replies, 3), halfDuplex));
  }

  /** The scan finds an index exactly when the listing has an Rx line
      before the line that ends it. */
  lemma ScanFindsRx(listing: seq<string>, debug: bool)
    ensures ScanLines(Kinds(listing), debug, "").0 != "" <==> HasRxLine(listing)
  {
    var kinds := Kinds(listing);
    var n := ListingLength(kinds);
    var idx := ScanLines(kinds, debug, "").0;
    if debug {
      ScanKeepsLast(kinds, "");
    } else {
      ScanKeepsFirst(kinds, "");
    }
    if HasRxLine(listing) {
      var i0 :| 0 <= i0 < n && Classify(listing[i0]).RxUart?;
      assert kinds[i0].RxUart?;
      var i :| 0 <= i < n && kinds[i] == RxUart(idx);
      assert Classify(listing[i]) == RxUart(idx);
      RxLineShape(listing[i]);
    } else {
      forall i | 0 <= i < n ensures !kinds[i].RxUart? {
        assert kinds[i] == Classify(listing[i]);
      }
    }
  }

  /** Without an Rx line in the listing the scan refuses, having written
      only `serial`, and leaves the port open. */
  lemma ScanNotFound(listing: seq<string>, baudrate: int, debug: bool)
    requires !HasRxLine(listing)
    ensures var u := UartStage(listing, baudrate, debug);
            u.outcome == Refused(MsgRxNotFound) && !u.closed && u.writes == [Sent("serial\r\n", false)]
  {
    UartStageCases(listing, baudrate, debug);
    ScanFindsRx(listing, debug);
  }

  /** Without `debug`, the scan hands over the UART of the FIRST Rx line
      of the listing, reads nothing after it, and closes the port. */
  lemma ScanFirstRx(listing: seq<string>, baudrate: int)
    requires HasRxLine(listing)
    ensures var u := UartStage(listing, baudrate, false);
            u.outcome == Success && u.closed && |u.writes| == 2 && u.writes[0] == Sent("serial\r\n", false)
            && exists i :: 0 <= i < ListingLength(Kinds(listing)) && Classify(listing[i]).RxUart?
                           && (forall j :: 0 <= j < i ==> !Classify(listing[j]).RxUart?)
                           && u.writes[1] == Sent(PassthroughCommand(Classify(listing[i]).index, baudrate) + "\n", false)
                           && u.rest == listing[i + 1..]
  {
    var i := FirstRxLine(listing);
    UartStageCases(listing, baudrate, false);
  }

  /** Where the scan without `debug` stops: at the first Rx line. */
  lemma FirstRxLine(listing: seq<string>) returns (i: nat)
    requires HasRxLine(listing)
    ensures var scan := ScanLines(Kinds(listing), false, "");
            i < ListingLength(Kinds(listing)) && Classify(listing[i]) == RxUart(scan.0) && scan.0 != ""
            && scan.1 == i + 1 && forall j :: 0 <= j < i ==> !Classify(listing[j]).RxUart?
  {
    var kinds := Kinds(listing);
    var n := ListingLength(kinds);
    var scan := ScanLines(kinds, false, "");
    ScanFindsRx(listing, false);
    var i0 :| 0 <= i0 < n && Classify(listing[i0]).RxUart?;
    assert kinds[i0].RxUart?;
    ScanKeepsFirst(kinds, "");
    i :| 0 <= i < n && kinds[i] == RxUart(scan.0) && scan.1 == i + 1 && forall j :: 0 <= j < i ==> !kinds[j].RxUart?;
    forall j | 0 <= j < i ensures !Classify(listing[j]).RxUart? {
      assert kinds[j] == Classify(listing[j]);
    }
  }

  /** With `debug`, the scan reads the whole listing and hands over the
      UART of the LAST Rx line before the line that ends it. */
  lemma ScanLastRx(listing: seq<string>, baudrate: int)
    requires HasRxLine(listing)
    ensures var u := UartStage(listing, baudrate, true);
            var n := ListingLength(Kinds(listing));
            u.outcome == Success && u.closed && |u.writes| == 2 && u.writes[0] == Sent("serial\r\n", false)
            && exists i :: 0 <= i < n && Classify(listing[i]).RxUart?
                           && (forall j :: i < j < n ==> !Classify(listing[j]).RxUart?)
                           && u.writes[1] == Sent(PassthroughCommand(Classify(listing[i]).index, baudrate) + "\n", false)
  {
    var i := LastRxLine(listing);
    UartStageCases(listing, baudrate, true);
  }

  /** What the scan with `debug` keeps: the last Rx line of the listing. */
  lemma LastRxLine(listing: seq<string>) returns (i: nat)
    requires HasRxLine(listing)
    ensures var scan := ScanLines(Kinds(listing), true, "");
            var n := ListingLength(Kinds(listing));
            i < n && Classify(listing[i]) == RxUart(scan.0) && scan.0 != ""
            && forall j :: i < j < n ==> !Classify(listing[j]).RxUart?
  {
    var kinds := Kinds(listing);
    var n := ListingLength(kinds);
    var idx := ScanLines(kinds, true, "").0;
    ScanFindsRx(listing, true);
    var i0 :| 0 <= i0 < n && Classify(listing[i0]).RxUart?;
    assert kinds[i0].RxUart?;
    ScanKeepsLast(kinds, "");
    i :| 0 <= i < n && kinds[i] == RxUart(idx) && forall j :: i < j < n ==> !kinds[j].RxUart?;
    forall j | i < j < n ensures !Classify(listing[j]).RxUart? {
      assert kinds[j] == Classify(listing[j]);
    }
  }

  /** The writes after the probe and the three queries. */
  lemma WritesAfterQueries(probe: Sent, u: seq<Sent>)
    ensures var w := [probe] + (CheckWrites + u);
            |w| == 4 + |u| && forall k :: 0 <= k < |u| ==> w[4 + k] == u[k]
  {
  }

  /** When the checks pass but the listing has no Rx line, the run is
      refused after `serial` was written, and the port stays open. */
  lemma RxNotFound(replies: seq<string>, baudrate: int, halfDuplex: bool, debug: bool)
    requires ClassifyWakeUp(ReplyAt(replies, 0)) == CliPrompt
    requires ReplyFailures(ReplyAt(replies, 1), ReplyAt(replies, 2), ReplyAt(replies, 3), halfDuplex) == []
    requires !HasRxLine(Drop(replies, 4))
    ensures var t := Handshake(replies, baudrate, halfDuplex, debug);
            t.outcome == Refused(MsgRxNotFound) && !t.closed
            && |t.writes| == 5 && t.writes[4] == Sent("serial\r\n", false)
  {
    HandshakeReachesScan(replies, baudrate, halfDuplex, debug);
    ScanNotFound(Drop(replies, 4), baudrate, debug);
    var t := Handshake(replies, baudrate, halfDuplex, debug);
    var u := UartStage(Drop(replies, 4), baudrate, debug);
    WritesAfterQueries(Sent(WakeUpProbe, halfDuplex), u.writes);
    assert t.writes[4] == u.writes[0];
  }

  /** When the checks pass and the listing has an Rx line, the run ends by
      writing `serialpassthrough <index> <baud>` and a newline, as the sixth
      and last write, and closing the port. The index is that of the first
      Rx line without `debug` and of the last one before the end of the
      listing with it. */
  lemma HandOver(replies: seq<string>, baudrate: int, halfDuplex: bool, debug: bool)
    requires ClassifyWakeUp(ReplyAt(replies, 0)) == CliPrompt
    requires ReplyFailures(ReplyAt(replies, 1), ReplyAt(replies, 2), ReplyAt(replies, 3), halfDuplex) == []
    requires HasRxLine(Drop(replies, 4))
    ensures var t := Handshake(replies, baudrate, halfDuplex, debug);
            var listing := Drop(replies, 4);
            var n := ListingLength(Kinds(listing));
            t.outcome == Success && t.closed && |t.writes| == 6 && t.writes[4] == Sent("serial\r\n", false)
            && exists i :: 0 <= i < n && Classify(listing[i]).RxUart?
                           && t.writes[5] == Sent(PassthroughCommand(Classify(listing[i]).index, baudrate) + "\n", false)
                           && (!debug ==> forall j :: 0 <= j < i ==> !Classify(listing[j]).RxUart?)
                           && (debug ==> forall j :: i < j < n ==> !Classify(listing[j]).RxUart?)
  {
    var listing := Drop(replies, 4);
    HandshakeReachesScan(replies, baudrate, halfDuplex, debug);
    var u := UartStage(listing, baudrate, debug);
    if debug {
      ScanLastRx(listing, baudrate);
    } else {
      ScanFirstRx(listing, baudrate);
    }
    WritesAfterQueries(Sent(WakeUpProbe, halfDuplex), u.writes);
  }

  /** A run succeeds exactly when the command line answered, every check
      passed and the listing has an Rx line; and the port is closed
      exactly when the run succeeds. */
  lemma SuccessExactly(replies: seq<string>, baudrate: int, halfDuplex: bool, debug: bool)
    ensures var t := Handshake(replies, baudrate, halfDuplex, debug);
            (t.outcome == Success <==>
               ClassifyWakeUp(ReplyAt(replies, 0)) == CliPrompt
               && ReplyFailures(ReplyAt(replies, 1), ReplyAt(replies, 2), ReplyAt(replies, 3), halfDuplex) == []
               && HasRxLine(Drop(replies, 4)))
            && (t.closed <==> t.outcome == Success)
  {
    if ClassifyWakeUp(ReplyAt(replies, 0)) != CliPrompt {
    } else if ReplyFailures(ReplyAt(replies, 1), ReplyAt(replies, 2), ReplyAt(replies, 3), halfDuplex) != [] {
      ConfigRefused(replies, baudrate, halfDuplex, debug);
    } else if !HasRxLine(Drop(replies, 4)) {
      RxNotFound(replies, baudrate, halfDuplex, debug);
    } else {
      HandOver(replies, baudrate, halfDuplex, debug);
    }
  }

  /** The passthrough command is the index and the baud rate after
      `serialpassthrough `, each followed by a single separator: a space
      after the index and a bare newline, not a carriage return and newline,
      after the baud rate, whose digits read back as the baud rate whenever
      it has no more digits than `int()` takes. */
  lemma CommandFormat(index: string, baudrate: int)
    ensures var text := PassthroughCommand(index, baudrate) + "\n";
            var k := |"serialpassthrough "| + |index|;
            StartsWith(text, "serialpassthrough " + index + " ")
            && EndsWith(text, "\n") && !EndsWith(text, "\r\n")
            && (|NatToString(Magnitude(baudrate))| <= MaxStrDigits ==>
                ParseInt(text[k + 1..|text| - 1]) == Some(baudrate))
  {
    var text := PassthroughCommand(index, baudrate) + "\n";
    var k := |"serialpassthrough "| + |index|;
    var b := IntToString(baudrate);
    assert text == "serialpassthrough " + index + " " + b + "\n";
    assert text[k + 1..|text| - 1] == b;
    assert text[|text| - 2] == b[|b| - 1];
    if |NatToString(Magnitude(baudrate))| <= MaxStrDigits {
      ParseIntRoundTrip(baudrate);
    }
  }
}
