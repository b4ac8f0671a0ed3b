# Passthrough initialisation handshake

This project models the handshake in `src/python/BFinitPassthrough.py`. The
handshake talks to a flight controller's command line (CLI) over a serial
port and hands one of the flight controller's UARTs over to the receiver
("serial passthrough"), so that the receiver can be flashed through the
flight controller. One run goes like this:

1. **Wake-up.** Write the probe `#\r\n` and read one reply. A reply with the
   bootloader banner `CCC` means passthrough is already on. A reply that,
   once stripped, is empty or does not end with the prompt `#` means no CLI
   is there. Both end the run as `AlreadyActive` (the source's
   `PassthroughEnabled`).
2. **Configuration checks.** Query `serialrx_provider`, `serialrx_inverted`
   and `serialrx_halfduplex` in that order and read one reply to each. A
   check passes when the stripped reply contains ` = v` for an accepted `v`.
   All three checks always run. If any fails, the run is `Refused` (the
   source's `PassthroughFailed`), and the message names every mismatch on a
   `!!! ... !!!` line.
3. **UART scan.** Write `serial\r\n` and read the listing line by line. The
   scan stops at a blank line or a line containing `#`. On a line starting
   with `serial`, the scan takes the leftmost match of
   `serial ([0-9]+) ([0-9]+) `. If that match's second group is `64`, its
   first group is the receiver's UART. Without debug the first such
   line wins and the scan stops there. With debug the scan reads on and the
   last one wins. With no such line, the run is `Refused`.
4. **Hand-over.** Write `serialpassthrough <index> <baud>` and a newline,
   close the port, and report `Success`.

The entry point reads the baud rate from its first argument with `int()`
and falls back to 420000 when that raises. `int()` ignores whitespace
around the number and single underscores between digits. Its whitespace is
a smaller set than `str.strip()` removes: the ASCII space, tab, line feed,
vertical tab, form feed and carriage return, and the non-ASCII characters
of `str.isspace()`. The separators U+001C to U+001F are not skipped, so an
argument that starts with one falls back to 420000. Like CPython 3.11
and later, it refuses text with more than 4300 digits (the default
`sys.get_int_max_str_digits()`).

How the model is built:

- `Link.ScriptedLink` is the port: a queue of scripted reply lines, a log
  of every write, and a closed flag. A read with the queue empty returns
  `""`, which stands for a read timeout.
- `Passthrough.Handshake` states a whole run as a function of the replies.
  It returns the outcome, the writes, the replies left unread, and whether
  the port was closed.
- `Passthrough.PassthroughInit` is the step-by-step procedure over a
  `ScriptedLink`, with the source's loops and early exits, proved equal to
  `Handshake`. Its pieces are `ValidateSerialRx` (the `found` loop),
  `CheckConfiguration` (the `serial_check` list), `BuildConfigError` (the
  message loop) and `DetectRxUart` (the `while True` scan).
- The lemmas state what a run promises.
- The supporting modules:
  - `Text`: Python's `strip`, `in`, `startswith` and `endswith`.
  - `Decimal`: `str(int)` and `int()` in base 10.
  - `SerialListing`: the pattern and the scan over classified listing lines.

Notes on the code's behaviour:

- The passthrough command ends in a bare `\n` (line 106), not `\r\n`.
  `CommandFormat` states this.
- The port is closed only on success (line 108). The `Refused` paths raise
  before reaching `s.close()`, so they leave the port open.
  `SuccessExactly` states this.
- Only the probe is written with the half-duplex flag (line 51). Every
  other write uses the writer's default, modelled as not paced.
- The debug switch `SCRIPT_DEBUG` (line 6) is off as shipped. The model
  takes it as a parameter so that both scans can be stated.

## Model

| member | source | states |
|---|---|---|
| `Text.TrimStartShape` | src/python/BFinitPassthrough.py:28 | trimming removes only whitespace (of the given kind) from the front and leaves a suffix that does not start with it |
| `Text.TrimEndShape` | src/python/BFinitPassthrough.py:28 | trimming removes only whitespace (of the given kind) from the back and leaves a prefix that does not end with it |
| `Text.Untrimmed` | src/python/BFinitPassthrough.py:28 | text without whitespace (of the given kind) at its ends is left as it is |
| `Text.Strip` | src/python/BFinitPassthrough.py:28 | Python's `str.strip()`, trimming Python's `isspace()` set; specified by `TrimStartShape`, `TrimEndShape`, `Untrimmed` and `StripShape` |
| `Text.StripShape` | src/python/BFinitPassthrough.py:52 | the stripped reply is a slice of the reply with no whitespace at either end; only whitespace was cut on each side |
| `Text.Contains` | src/python/BFinitPassthrough.py:31 | Python's `sub in s`, also at lines 54 and 86; specified by `ContainsWithin` and `ContainsSelf`, and used by `CheckPassesSingle`, `CheckPassesPair` and `WakeUpDecides` |
| `Text.StartsWith` | src/python/BFinitPassthrough.py:89 | Python's `s.startswith(p)`; used by `RxLineShape` and `RxLineFromMatch` |
| `Text.EndsWith` | src/python/BFinitPassthrough.py:56 | Python's `s.endswith(p)`; used by `WakeUpDecides` |
| `Text.TrimStartSkips` | src/python/BFinitPassthrough.py:28 | whitespace in front of text that starts with a non-space is exactly what `strip` removes at the front |
| `Text.TrimEndSkips` | src/python/BFinitPassthrough.py:28 | whitespace after text that ends with a non-space is exactly what `strip` removes at the back |
| `Text.StripPadded` | src/python/BFinitPassthrough.py:28 | stripping text padded with whitespace gives back the text when it has no whitespace at its ends |
| `Text.ContainsWithin` | src/python/BFinitPassthrough.py:31 | a substring of a piece is a substring of any text that embeds the piece |
| `Decimal.NatToString` | src/python/BFinitPassthrough.py:102 | the decimal text of a number is non-empty, all digits, and has no leading zero unless the number is 0 |
| `Decimal.IntToString` | src/python/BFinitPassthrough.py:102 | the text of an integer ends in a digit and starts with `-` exactly when the integer is negative |
| `Decimal.NatToStringValue` | src/python/BFinitPassthrough.py:102 | the digits of the decimal text have the number's value |
| `Decimal.DropUnderscores` | src/python/BFinitPassthrough.py:115 | dropping the underscores of a digit group leaves only digits; `DropUnderscoresCount`, `DropUnderscoresAppend` and `DropUnderscoresOfDigits` state which ones |
| `Decimal.DropUnderscoresCount` | src/python/BFinitPassthrough.py:115 | exactly the underscores are dropped: the result is shorter by the number of underscores |
| `Decimal.DropUnderscoresAppend` | src/python/BFinitPassthrough.py:115 | dropping underscores works piece by piece, so the digits stay in order |
| `Decimal.DropUnderscoresOfDigits` | src/python/BFinitPassthrough.py:115 | text of digits alone is left as it is |
| `Decimal.DigitGroups` | src/python/BFinitPassthrough.py:115 | the digit syntax `int()` accepts after the sign; specified by `UnderscoreGroups` |
| `Decimal.ParseUnsigned` | src/python/BFinitPassthrough.py:115 | the value of digit groups within the 4300-digit limit; specified through `ParseInt` by `ParseIntRoundTrip`, `UnderscoreIgnored` and `TooManyDigits` |
| `Decimal.IntStrip` | src/python/BFinitPassthrough.py:115 | the whitespace `int()` skips around the number, trimmed with `IsIntSpace`; specified by `TrimStartShape`, `TrimEndShape` and `Untrimmed` |
| `Decimal.ParseInt` | src/python/BFinitPassthrough.py:115 | `int(text)` in base 10; specified by `ParseIntRoundTrip`, `UnderscoreIgnored`, `TooManyDigits`, `ParseIntRejectsBlank`, `ParsedIsStripped` and `SeparatorNotSkipped` |
| `Decimal.ParsedEnds` | src/python/BFinitPassthrough.py:115 | the text `int()` reads, when it parses, is non-empty, starts with a sign or digit and ends with a digit |
| `Decimal.ParsedIsStripped` | src/python/BFinitPassthrough.py:115 | for text that parses, what `int()` reads is what `str.strip()` leaves |
| `Decimal.SeparatorNotSkipped` | src/python/BFinitPassthrough.py:115-117 | text starting with one of U+001C to U+001F does not parse, although `str.strip()` would remove that character |
| `Decimal.UnderscoreGroups` | src/python/BFinitPassthrough.py:115 | two digit runs joined by one underscore are text `int()` accepts |
| `Decimal.UnderscoreJoin` | src/python/BFinitPassthrough.py:115 | the digits of two runs joined by an underscore are those of the two runs, in order |
| `Decimal.UnderscoreIgnored` | src/python/BFinitPassthrough.py:115 | an underscore between digits is ignored: `int("1_000") == int("1000")` |
| `Decimal.TooManyDigits` | src/python/BFinitPassthrough.py:115-117 | decimal text of more than 4300 digits does not parse |
| `Decimal.ParseIntRoundTrip` | src/python/BFinitPassthrough.py:115 | `int(str(n)) == n` for every integer `n` of at most 4300 digits |
| `Decimal.ParseIntRejectsBlank` | src/python/BFinitPassthrough.py:115-117 | blank text and a bare sign do not parse as an integer |
| `SerialListing.DigitRun` | src/python/BFinitPassthrough.py:92 | `[0-9]+` consumes the whole run of digits: all digits, and no digit after it |
| `SerialListing.SpacedRun` | src/python/BFinitPassthrough.py:92 | a non-empty run of digits followed by a space, as `([0-9]+) ` needs |
| `SerialListing.MatchAtSound` | src/python/BFinitPassthrough.py:92 | what an attempt at a position reports is a match of `serial ([0-9]+) ([0-9]+) ` there, with those groups |
| `SerialListing.MatchAtComplete` | src/python/BFinitPassthrough.py:92 | every match of the pattern at a position is what the attempt there reports |
| `SerialListing.MatchAt` | src/python/BFinitPassthrough.py:92 | the pattern's attempt at one position; specified by `MatchAtSound` and `MatchAtComplete` |
| `SerialListing.Search` | src/python/BFinitPassthrough.py:92 | `re.search`; specified by `SearchNone`, `SearchFound` and `SearchLeftmost` |
| `SerialListing.SearchNone` | src/python/BFinitPassthrough.py:92-93 | when `re.search` finds nothing, the pattern matches nowhere in the line |
| `SerialListing.SearchFound` | src/python/BFinitPassthrough.py:92-93 | the groups `re.search` returns come from a match with no match to its left |
| `SerialListing.SearchLeftmost` | src/python/BFinitPassthrough.py:92 | a match with no match to its left is the one `re.search` returns |
| `SerialListing.Classify` | src/python/BFinitPassthrough.py:84-95 | how the scan reads one line; specified by `RxLineShape` and `RxLineFromMatch` |
| `SerialListing.RxLineShape` | src/python/BFinitPassthrough.py:84-95 | a line taken as the receiver's is, once stripped, non-blank, free of `#` and starts with `serial`; the leftmost match of the pattern in it has function code `64` and the line's index, a non-empty run of digits |
| `SerialListing.RxLineFromMatch` | src/python/BFinitPassthrough.py:84-95 | conversely, such a line is taken as the receiver's with the index of that leftmost match |
| `SerialListing.ScanLines` | src/python/BFinitPassthrough.py:83-97 | the scan reads no more lines than there are queued |
| `SerialListing.ListingLength` | src/python/BFinitPassthrough.py:84-87 | the listing proper is the lines before the first blank or `#` line, none of which ends it |
| `SerialListing.ScanKeepsFirst` | src/python/BFinitPassthrough.py:90-97 | without debug the scan keeps the first Rx line's index and has read exactly up to it; with no Rx line it keeps what it had and reads through the end of the listing |
| `SerialListing.ScanKeepsLast` | src/python/BFinitPassthrough.py:90-97 | with debug the scan reads through the end of the listing and keeps the last Rx line's index, or what it had when there is none |
| `Link.ScriptedLink.constructor` | src/python/BFinitPassthrough.py:44-49 | a fresh port has the device's replies queued, nothing written, and is open |
| `Link.ScriptedLink.ReadLine` | src/python/BFinitPassthrough.py:84 | a read takes the next queued reply, or `""` on a timeout when none is left |
| `Link.ScriptedLink.Write` | src/python/BFinitPassthrough.py:81 | a write appends exactly that text to the log and reads nothing |
| `Link.ScriptedLink.Close` | src/python/BFinitPassthrough.py:108 | closing marks the port closed and changes nothing else |
| `Passthrough.GetCommand` | src/python/BFinitPassthrough.py:27 | the query `get serialrx_<key>\r\n`; `PromptWrites` and `WakeUpDecides` state the three queries written out |
| `Passthrough.ProviderAccept` | src/python/BFinitPassthrough.py:60 | the accepted providers by link mode; specified by `AcceptedSettings` |
| `Passthrough.ClassifyWakeUp` | src/python/BFinitPassthrough.py:52-57 | how the reply to the probe is read; specified by `WakeUpDecides` |
| `Passthrough.CheckPasses` | src/python/BFinitPassthrough.py:28-33 | whether a reply passes a check; specified by `CheckPassesSingle`, `CheckPassesPair` and `AcceptedSettings` |
| `Passthrough.CheckPassesSingle` | src/python/BFinitPassthrough.py:23-24 | a single accepted string acts as a list of one: the check passes iff the stripped reply contains ` = v` |
| `Passthrough.CheckPassesPair` | src/python/BFinitPassthrough.py:29-33 | with two accepted strings the check passes iff the stripped reply contains ` = ` and either one |
| `Passthrough.AcceptedSettings` | src/python/BFinitPassthrough.py:60-64 | the provider must be CRSF or ELRS on a full-duplex link and GHST on a half-duplex one; inversion must be OFF; half-duplex must be OFF or AUTO |
| `Passthrough.ValidateSerialRx` | src/python/BFinitPassthrough.py:21-34 | one check writes `get serialrx_<key>\r\n`, reads one reply, and returns whether the check passes on it |
| `Passthrough.ConfigFailures` | src/python/BFinitPassthrough.py:59-65 | the mismatches collected from the three check results; specified by `FailuresInCheckOrder` |
| `Passthrough.ReplyFailures` | src/python/BFinitPassthrough.py:59-65 | the mismatches for the three replies; specified by `FailuresInCheckOrder`, `AcceptedSettings` and `CheckConfiguration` |
| `Passthrough.FailuresInCheckOrder` | src/python/BFinitPassthrough.py:59-65 | each failed check's mismatch is collected, nothing else is, and they come in the order the checks run; there is none exactly when all three checks pass |
| `Passthrough.CheckConfiguration` | src/python/BFinitPassthrough.py:59-65 | all three checks run and write their queries in order; the mismatches are those of their three replies |
| `Passthrough.BangLinesNameEach` | src/python/BFinitPassthrough.py:69-70 | every mismatch has its own `!!! ... !!!` line |
| `Passthrough.ConfigErrorText` | src/python/BFinitPassthrough.py:67-71 | the refusal message; specified by `ConfigErrorNamesEach` and built by `BuildConfigError` |
| `Passthrough.ConfigErrorNamesEach` | src/python/BFinitPassthrough.py:67-73 | the refusal message opens with the error header, names every mismatch, and ends with the advice line |
| `Passthrough.BuildConfigError` | src/python/BFinitPassthrough.py:67-71 | the loop builds exactly the refusal message |
| `Passthrough.DetectRxUart` | src/python/BFinitPassthrough.py:79-97 | the loop writes `serial\r\n` and then reads and keeps exactly what the scan over the classified listing reads and keeps |
| `Passthrough.Handshake` | src/python/BFinitPassthrough.py:37-108 | a whole run as a function of the replies; `PassthroughInit` is proved to follow it, and `WakeUpDecides`, `ConfigRefused`, `RxNotFound`, `HandOver` and `SuccessExactly` state what it gives |
| `Passthrough.ConfigStage` | src/python/BFinitPassthrough.py:59-108 | the run from the checks on; `ConfigureAndHandOver` follows it, and `ConfigRefused`, `RxNotFound` and `HandOver` state what it gives |
| `Passthrough.UartStage` | src/python/BFinitPassthrough.py:75-108 | the run from the `serial` listing on; specified by `ScanNotFound`, `ScanFirstRx` and `ScanLastRx` |
| `Passthrough.PassthroughInit` | src/python/BFinitPassthrough.py:37-108 | the procedure over a fresh port gives the outcome, writes, unread replies and closed flag of `Handshake` |
| `Passthrough.ConfigureAndHandOver` | src/python/BFinitPassthrough.py:59-108 | after a prompt, the procedure follows the configuration stage of `Handshake` |
| `Passthrough.SilentDevice` | src/python/BFinitPassthrough.py:52-57 | a device that never answers shows no CLI: only the probe is written and the port stays open |
| `Passthrough.WakeUpDecides` | src/python/BFinitPassthrough.py:51-60 | `CCC` in the stripped reply ends the run as already active with only the probe written; a blank reply or one not ending in `#` ends it as "no CLI"; otherwise the three queries follow the probe |
| `Passthrough.PromptWrites` | src/python/BFinitPassthrough.py:51-65 | after a prompt, the first four writes are the probe and the three queries in order |
| `Passthrough.ConfigRefused` | src/python/BFinitPassthrough.py:59-73 | a failed check refuses the run after exactly four writes with the message built from exactly the mismatches, leaves the port open, and the message names every mismatch between the header and the footer |
| `Passthrough.ScanFindsRx` | src/python/BFinitPassthrough.py:83-99 | the scan finds an index iff the listing has an Rx line before its end |
| `Passthrough.ScanNotFound` | src/python/BFinitPassthrough.py:99-100 | without an Rx line the scan refuses with the "RX Serial not found" message, after writing only `serial\r\n` |
| `Passthrough.FirstRxLine` | src/python/BFinitPassthrough.py:93-97 | without debug the scan stops on the first Rx line and keeps its index |
| `Passthrough.LastRxLine` | src/python/BFinitPassthrough.py:90-97 | with debug the scan keeps the index of the last Rx line before the end of the listing |
| `Passthrough.ScanFirstRx` | src/python/BFinitPassthrough.py:93-108 | without debug the first Rx line's UART is handed over, nothing after it is read, and the port is closed |
| `Passthrough.ScanLastRx` | src/python/BFinitPassthrough.py:90-108 | with debug the last Rx line's UART is handed over and the port is closed |
| `Passthrough.RxNotFound` | src/python/BFinitPassthrough.py:99-100 | with the checks passed and no Rx line, the run is refused after five writes, the last `serial\r\n`, and the port stays open |
| `Passthrough.HandOver` | src/python/BFinitPassthrough.py:99-108 | with the checks passed and an Rx line, the sixth and last write is `serialpassthrough <index> <baud>\n` for the first (no debug) or last (debug) Rx line, and the port is closed |
| `Passthrough.SuccessExactly` | src/python/BFinitPassthrough.py:54-108 | a run succeeds iff the CLI answered, every check passed and the listing has an Rx line; the port is closed iff the run succeeds |
| `Passthrough.PassthroughCommand` | src/python/BFinitPassthrough.py:102 | the command text; specified by `CommandFormat` |
| `Passthrough.CommandFormat` | src/python/BFinitPassthrough.py:102-106 | the command is `serialpassthrough `, the index, a space, the baud rate's digits (which parse back to the baud rate when there are at most 4300) and a bare `\n`, never `\r\n` |
| `Passthrough.RequestedBaudrate` | src/python/BFinitPassthrough.py:114-117 | the baud rate the entry point asks for; specified by `BaudrateFromArgument`, `BaudrateDefault`, `BaudrateAfterSeparator` and `BaudrateTooLong` |
| `Passthrough.BaudrateFromArgument` | src/python/BFinitPassthrough.py:114-115 | a baud rate of at most 4300 digits given as the first argument is the one asked for |
| `Passthrough.BaudrateDefault` | src/python/BFinitPassthrough.py:114-117 | without an argument, or with a blank one, 420000 is asked for |
| `Passthrough.BaudrateAfterSeparator` | src/python/BFinitPassthrough.py:114-117 | an argument starting with one of U+001C to U+001F makes `int()` raise, and 420000 is asked for |
| `Passthrough.BaudrateTooLong` | src/python/BFinitPassthrough.py:114-117 | an argument of more than 4300 digits makes `int()` raise, and 420000 is asked for |

## Left out

- Opening the port is left out (lines 44-46): baud 115200, 8N1 and the one-second timeout. The port is the scripted link.
- The `time.sleep(.2)` before closing is left out (line 107).
- The line reader's internals are not part of this model: `SerialHelper`, its delimiter lists (`set_delimiters`), `clear()`, the read timeouts and the byte pacing of half-duplex writes. Replies are scripted as already-delimited lines, and a timed-out read is `""`. A write records its half-duplex flag but not its pacing.
- Port discovery (`serials_find`) and the unused XMODEM import are left out (lines 2-3, 118). They are foreign code.
- `dbg_print` and stdout flushing are left out. They are output only.
- The outcomes are values, not the exceptions `PassthroughEnabled` and `PassthroughFailed`. The entry point's handler that prints the message is left out.
- `re.search` is modelled only for its one pattern, not as a general regular-expression engine.
- `Decimal.ParseInt` accepts only ASCII digits. Python's `int()` also accepts other Unicode decimal digits.
- `Decimal.ParseInt` follows CPython with the 4300-digit limit at its default. That means 3.11 and later, and the security releases 3.7.14, 3.8.14, 3.9.14 and 3.10.7 and later. Earlier releases have no limit. A changed `sys.set_int_max_str_digits` setting is not modelled.
- `Decimal.IntToString` does not model the same limit in `str()`. Under it, a baud rate of more than 4300 digits makes line 102 raise `ValueError`: nothing is written and the port stays open, where the model hands over and closes. The entry point cannot pass such a baud rate, because `int()` refuses the text. Only a direct caller of `bf_passthrough_init` could.
- `Text.IsSpace` is Python's whitespace set for `str`. Byte strings are not modelled.
