# Verified models of the jamjam client

Dafny models of the algorithms and state machines of the desktop client that are self-contained
and hard to get right, and proofs of what they promise:

- the in-place FFT and the dropout counter that judge a recording,
- the settings-help protocol, one app and a whole room of apps,
- the scanners that mask secrets and ids in the log, and the limiter of noisy call sites,
- the device slot with its opening threads, the numbered calls over the help relay, the capture
  ring, and the mixer with its announcements,
- the records by which a launch learns how the one before it ended, and the collection of this
  app's processes.

`dafny verify dfyconfig.toml` checks the project.

## How it is laid out

Where the client has an object whose methods change its fields, the project has a class with those
fields (`SettingsHelp.Help`, `AudioSlot.DeviceSlot`, `HelpLink.Bridge`, `CaptureRing.Ring`,
`Mixer.MixerState`, `LogLimiter.SiteLimiter`, `Watchdog.*`), and where it has a loop, a method with
that loop. Each such method is tied to a function of the old state; the runs of those functions, in
every order and interleaving, are what the lemmas are about.

| files | model |
|---|---|
| `ComplexNumbers`, `Dft`, `Bits`, `BitReversal`, `Fft`, `SignalAnalysis`, `SignalPower` | `src-tauri/src/audio_tap.rs` |
| `HelpProtocol`, `SettingsHelp`, `HelpRuns`, `HelpEffects`, `HelpRoom`, `HelpInOrder`, `HelpPair`, `HelpMoves`, `HelpAnswers`, `HelpAgreement`, `HelpLateAnswers` | `src-tauri/src/settings_help.rs` |
| `Utf8`, `SecretMask`, `SecretCoverage`, `SecretValues`, `UuidMask`, `UuidWords`, `LogLimiter` | `src-tauri/src/logging.rs` |
| `DeviceSwitching`, `AudioSlot`, `DeviceRuns` | `src-tauri/src/audio_slot.rs` |
| `BridgeSteps`, `HelpLink` | `src-tauri/src/help_link.rs` |
| `CaptureRing`, `CaptureStream` | `src-tauri/src/streaming.rs` |
| `Mixer`, `MixerFaders`, `MixerAnnouncements` | `src-tauri/src/mixer.rs` |
| `LaunchRecords`, `LaunchStages`, `Watchdog` | `src-tauri/src/watchdog.rs`, `src-tauri/src/usage.rs` |
| `ProcessTree` | `src/perf.rs` |
| `Wrappers`, `Arithmetic`, `Sets` | shared helpers |

## What is assumed

- Samples, levels and twiddle factors are exact reals. Of the cosine and sine of -TAU / len only
  this is assumed: the factor for 2 is -1, and that for 2 * len squared is that for len. The Hann
  window is a parameter.
- The machine's `&`, `|` and `^` on indices are written out on natural numbers, bit by bit; counters
  (`u32`, `u64`, `usize`) do not overflow.
- Times are whole milliseconds and come in as parameters. That a clock does not go back is assumed
  where a lemma says `Monotone`.
- In the help room the server stamps senders truthfully. Apps that do not run this code may send
  anything as themselves. That session numbers are fresh is assumed where a lemma says
  `FreshSessions` or `IsUnbroken`, and in the latter that they are 32 hex digits. An app does not ask itself for help.
- An audio callback delivers whole frames. `rtrb` is a ring whose chunk is written whole or not at
  all. A file is there or not; writing it does not fail.

## Where the code and its comments differ

- A dropout is documented as a run of near-silence of the shortest length or more between loud
  samples. Below 2 kHz that length rounds to 0, and the loop then counts one more, the first loud
  sample. `SignalAnalysis.Dropouts` states exactly when the count is the documented one.
- "At most 5 records per window" holds of the limiter's own windows (`LogLimiter.WindowHoldsFive`).
  Of any stretch of time as long as a window it holds with 9 for 5, and 9 is reached
  (`LogLimiter.RateIsBounded`, `LogLimiter.BoundIsMet`).
- "Busy" is documented as the only answer a peer can get without this app's user acting. A peer that
  stops a help also makes this app tell the room that it ended (`HelpRuns.StopMakesItTell`). What arrives
  makes the app send a message exactly if that is a busy answer or ends a help
  (`HelpRuns.ReceiveSendsLittle`).
- The two sides of a help need not agree on it, with every message arriving once and in order. A yes to
  a request that was withdrawn may be taken for a yes to the next one
  (`HelpLateAnswers.AgreementCanFail`), and a no to such a request for a no to the next one, whose yes
  is then lost (`HelpLateAnswers.LateNoLosesTheYes`). `HelpAgreement.SidesAgreeExactly` says when they
  agree. If the app that asks never let go of an unanswered request to the other, they do
  (`HelpAgreement.SidesAgreeUnlessLetGo`).
- "The value of every key" is masked, but for a key that begins inside the value of another one and
  whose own value runs past that: in `secret:token =b` the `b` stays (`SecretCoverage.ValueCanStay`).
  `SecretCoverage.EveryKeyIsMasked` says exactly when every value of a text is masked. In what comes out
  every key has no value or the mask, since there the inner key's name is masked.

## Model

| member | source | states |
|---|---|---|
| Fft.Transform | src-tauri/src/audio_tap.rs:309-343 | for every power-of-two length the arrays end up holding, in place, the discrete Fourier transform sum over m of x[m] * w^(k*m) of what they held |
| Fft.Stages | src-tauri/src/audio_tap.rs:325-342 | the loop over len takes transforms of one sample each to the transform of all of them |
| Fft.Stage | src-tauri/src/audio_tap.rs:329-340 | the loop over start does the butterflies of every block of len samples, and of each from the samples before the stage |
| Fft.Block | src-tauri/src/audio_tap.rs:330-339 | the loop over k crosses each pair of a block with the running twiddle w^k and touches no other sample |
| Fft.Cross | src-tauri/src/audio_tap.rs:332-337 | sample b becomes a - t and sample a becomes a + t, t being the old b turned by the twiddle |
| Fft.StageTransforms | src-tauri/src/audio_tap.rs:326-341 | a stage takes blocks that hold transforms of the decimated input to blocks twice as long that do |
| Fft.ReversedIsDecimated | src-tauri/src/audio_tap.rs:311-324 | bit-reversed order is the input split into even and odd samples all the way down |
| Fft.HalfTurn | src-tauri/src/audio_tap.rs:327-328 | the twiddle of len to the power len / 2 is -1, from the assumption on its squares alone |
| Dft.SplitSum | src-tauri/src/audio_tap.rs:332-338 | the sum over all samples is that over the even ones plus w^k times that over the odd ones, at w squared |
| Dft.Butterfly | src-tauri/src/audio_tap.rs:332-337 | bins k and k + n/2 of the whole are the sum and difference of bin k of the halves, turned |
| Fft.HalfAndQuarterTurn | src-tauri/src/audio_tap.rs:327-328 | what is assumed of the twiddles holds of those for 2 and 4, given exactly |
| Fft.EighthOfATurn | src-tauri/src/audio_tap.rs:327-328 | and of those for 2, 4 and 8, given the cosine of an eighth of a turn |
| BitReversal.Reorder | src-tauri/src/audio_tap.rs:311-324 | both arrays end up in bit-reversed order |
| BitReversal.StepReversed | src-tauri/src/audio_tap.rs:314-319 | the inner loop adds one to the reversed counter and always meets a zero bit before the bits run out |
| BitReversal.IncrementReverses | src-tauri/src/audio_tap.rs:313-319 | from the reversal of i the counter goes to the reversal of i + 1 |
| BitReversal.RevTwice | src-tauri/src/audio_tap.rs:320-323 | reversing the bits twice gives the number back, so places are exchanged in pairs |
| BitReversal.ReversedTwice | src-tauri/src/audio_tap.rs:311-324 | reordering what was reordered gives the arrays back |
| Bits.TopBit | src-tauri/src/audio_tap.rs:315-319 | testing, clearing and setting the highest bit by and, xor and or is comparing, subtracting and adding its weight |
| SignalAnalysis.DominantFrequency | src-tauri/src/audio_tap.rs:283-307 | none below 64 samples; else, over the last largest power of two of samples up to the window, the frequency of the first of the strongest bins of the exact transform, or none if no bin has more than 1e-9 |
| SignalAnalysis.WindowIsLargestPowerOfTwo | src-tauri/src/audio_tap.rs:286-291 | the length transformed is the largest power of two not above the samples there are, so the slice is legal |
| SignalAnalysis.StrongestBin | src-tauri/src/audio_tap.rs:299-305 | the fold finds the first bin of the most power, or bin 0 with no power; it finds power if and only if some bin is not zero |
| ComplexNumbers.NormIsMagnitude | src-tauri/src/audio_tap.rs:301 | the power of a bin is never negative, and zero of the zero bin only |
| ComplexNumbers.NormOfProduct | src-tauri/src/audio_tap.rs:301 | the power of a product is the product of the powers |
| SignalPower.TurnedSoundsTheSame | src-tauri/src/audio_tap.rs:299-306 | turning bins by numbers of magnitude 1, one for all or one for each, changes neither the strongest bin nor the frequency |
| SignalPower.RotatedSoundsTheSame | src-tauri/src/audio_tap.rs:298-306 | a signal played in a circle has the same powers, strongest bin and frequency from whichever sample it begins |
| SignalPower.OnlyTheEndIsHeard | src-tauri/src/audio_tap.rs:291-296 | what is transformed is the end of the signal, each sample by its own weight, whatever came before |
| SignalAnalysis.Dropouts | src-tauri/src/audio_tap.rs:258-281 | 0 for silence; the number of whole runs of near-silence of the shortest length or more with a loud sample on both sides, if and only if that length is at least one sample or the signal is silent |
| SignalAnalysis.RatesWithALimit | src-tauri/src/audio_tap.rs:268 | that length is at least one sample if and only if the sample rate is 2 kHz or more |
| SignalAnalysis.CountRuns | src-tauri/src/audio_tap.rs:269-280 | the loop counts those runs, and one more when the length is zero and there is a loud sample |
| SignalAnalysis.GapsGrow | src-tauri/src/audio_tap.rs:270-279 | looking at one more sample adds the run that ends there, if it ends and is long enough, and no other |
| SignalAnalysis.FirstAndLastLoud | src-tauri/src/audio_tap.rs:261-267 | position and rposition: the first and the last loud sample, if there is one |
| SettingsHelp.Help.ReceiveAt | src-tauri/src/settings_help.rs:359-453 | the whole of what each message does, and that what does not fit is dropped |
| SettingsHelp.Help.LinkClosed | src-tauri/src/settings_help.rs:467-500 | ends the help of that very session and tells the peer |
| HelpRuns.BusyAnswersAreSpaced | src-tauri/src/settings_help.rs:359-391 | in any run two busy answers to one participant are BUSY_REPLY_INTERVAL apart; asking and withdrawing, others asking, and reset change nothing about it |
| HelpRuns.ReceiveSendsLittle | src-tauri/src/settings_help.rs:359-453 | a message makes the app send one message if that is a busy answer, one if it ends a help, else none |
| HelpRuns.StopMakesItTell | src-tauri/src/settings_help.rs:419-430 | a peer that stops helping makes the app tell the room |
| HelpRuns.AnswersAreBounded | src-tauri/src/settings_help.rs:359-453 | in any run what arrives makes the app send no more than its busy answers and one message for each accept of its own user |
| HelpRuns.ShadowIsExact | src-tauri/src/settings_help.rs:264-551 | a screen fed the events in order and its own successful actions shows giving and receiving exactly as they are |
| HelpRuns.AnnouncementsBalance | src-tauri/src/settings_help.rs:296-347 | started notices less ended ones less the helps that ended by leaving are 1 exactly while the app is helped, else 0 |
| HelpRuns.NamedStopEndsOnlyThatHelp | src-tauri/src/settings_help.rs:419-441 | a stop naming a session ends exactly the help of that session with its sender, in any state |
| HelpEffects.LinksAreHelpsBegun | src-tauri/src/settings_help.rs:392-412 | over any run the links to the relay that are opened are the helps begun as helper, in order, each to the one helped, under its number and by the name its yes came with |
| HelpEffects.LinkBelongsToHelp | src-tauri/src/settings_help.rs:393-411 | a link is opened only to the one that was asked, as the help with it begins under that number |
| HelpEffects.HelpOpensOneLink | src-tauri/src/settings_help.rs:393-411 | a call that begins a help as helper opens exactly one link, and any other call none |
| HelpEffects.YesBeginsHelp | src-tauri/src/settings_help.rs:393-411 | a help begins exactly with a yes, under a proper number, from the one that was asked |
| HelpEffects.NoticesAreTrue | src-tauri/src/settings_help.rs:296-347 | the room is told that a help began, or ended, exactly as it does and who helped, leaving aside the ends it sees itself |
| HelpEffects.BeginningsAreShown | src-tauri/src/settings_help.rs:369-411 | the screen is shown a request, and the start of a help in either role, exactly as it happens and by the name it came with |
| HelpEffects.EndsAreShown | src-tauri/src/settings_help.rs:413-521 | the screen is shown every end that it does not know of, with its participant and its reason |
| HelpEffects.AsksAndAnswersAreSent | src-tauri/src/settings_help.rs:264-391 | requests, yeses, noes and busy answers are sent exactly as the app asks, accepts, declines or is busy and has not said so lately |
| HelpEffects.StopsAreSent | src-tauri/src/settings_help.rs:323-347 | a stop is sent exactly as the user stops or the link is gone, to the other side, under the number of the help if it has one |
| HelpEffects.GivingChangesSo | src-tauri/src/settings_help.rs:264-521 | what the app gives begins, becomes a help and ends by these calls and no other |
| HelpEffects.ReceivingChangesSo | src-tauri/src/settings_help.rs:264-521 | and so does what it receives |
| HelpRoom.HelpWasAskedForAndAccepted | src-tauri/src/settings_help.rs:392-412 | in every run of a room, with loss, delay, doubling and reordering, a helper had asked the one it helps, which had then accepted it under that session |
| HelpRoom.HelpedMeansAccepted | src-tauri/src/settings_help.rs:296-318 | whatever peers send, an app is helped only by one its user accepted under that session, and who had asked before if it runs this code |
| HelpRoom.SessionsAreNotShared | src-tauri/src/settings_help.rs:293-305 | with fresh numbers a session has one helper and one helped over the whole run |
| HelpInOrder.StopEndsNothingLater | src-tauri/src/settings_help.rs:421-430 | with each pair's messages in order, some perhaps lost, a helper's stop, named or not, ends no help begun by a request sent after it |
| HelpInOrder.RunsAreOrdered | src-tauri/src/settings_help.rs:369-380 | what is still under way to an app from the peer it receives help from was sent after the request that began it |
| HelpAnswers.AnswerIsToTheLastRequest | src-tauri/src/settings_help.rs:392-418 | in every run with messages in order, some perhaps lost, apps leaving and restarting: an answer, yes or no, that comes to an app that waits answers its last request if and only if since the request it answers the app has neither let go of an unanswered one to that peer nor taken an answer to an earlier one |
| HelpAnswers.AnswersAreInTime | src-tauri/src/settings_help.rs:264-273 | an app that never let go of an unanswered request to the peer takes no answer for an answer to another request |
| HelpMoves.EveryActionMoves | src-tauri/src/settings_help.rs:264-521 | whatever happens in the room is, between any two of its apps, one of nine moves of two sides and two sets of messages, first sent first heard |
| HelpAgreement.SidesAgreeExactly | src-tauri/src/settings_help.rs:392-441 | nothing lost, no one leaving, numbers fresh: with no message of the help under way the two sides hold the same help, or none, if and only if the helper did not take a yes to a request it had let go of and the helped one's yes did not come in while no one waited; the latter only after an earlier answer cut the wait short |
| HelpAgreement.SidesAgreeUnlessLetGo | src-tauri/src/settings_help.rs:264-273 | in such a run they agree whenever nothing is under way, if the asking app never let go of an unanswered request to the other |
| HelpLateAnswers.AgreementCanFail | src-tauri/src/settings_help.rs:392-405 | a run, in order and without loss, at whose end nothing is under way and one app helps another that is helped by no one |
| HelpLateAnswers.LateNoLosesTheYes | src-tauri/src/settings_help.rs:413-418 | such a run at whose end one app is helped and no one helps, though no yes was taken late |
| HelpLateAnswers.LateNoMakesTheYesLate | src-tauri/src/settings_help.rs:413-418 | such a run in which a yes comes late though since its request none was let go of |
| SecretMask.RedactSecrets | src-tauri/src/logging.rs:409-427 | for every UTF-8 text the scanner ends, cuts every slice at character boundaries, masks values of keys, each a whole literal, in order and apart, and copies all other bytes in order |
| SecretMask.SecretValueRange | src-tauri/src/logging.rs:437-482 | the cursor finds the value range of the key, with its rest of a name, spaces, separator, quotes and escapes |
| SecretMask.QuoteEndIsFirstToClose | src-tauri/src/logging.rs:459-465 | a quoted value ends at its first quote that no odd run of backslashes stands before, or at the end of the text |
| SecretMask.ValueIsWhole | src-tauri/src/logging.rs:459-480 | a value is a whole literal: all that is quoted, or all up to the next delimiter |
| SecretValues.ValueIsExactly | src-tauri/src/logging.rs:437-482 | the scan finds a value if and only if behind the rest of the name, spaces, a separator and spaces there is a whole literal, and it is that one |
| SecretValues.EscapedQuoteIsMasked | src-tauri/src/logging.rs:464 | of `"password":"a\"b"` is left `"password":"***"` |
| SecretMask.NextSecretKeyEnd | src-tauri/src/logging.rs:429-434 | the end of the key that ends first among those beginning at the place or later; none only if there is none |
| SecretMask.MaskingIsComplete | src-tauri/src/logging.rs:398-427 | of what comes out, not of what goes in: every secret key there, in any letter case, overlapping or nested in another's name too, has no value or the mask |
| SecretCoverage.KeyOutsideIsMasked | src-tauri/src/logging.rs:398-427 | a key of the input that does not begin inside a value that is masked has no value, or its value is masked, whole |
| SecretCoverage.PastIsMaskedByName | src-tauri/src/logging.rs:415-423 | the value of a key that begins inside a masked value and runs past it is masked if and only if the key's name goes on behind the masked value with another key |
| SecretCoverage.EveryKeyIsMasked | src-tauri/src/logging.rs:398-427 | the value of every key of the input is masked if and only if that is so for each key that begins inside a masked value and whose own value runs past it |
| SecretCoverage.NoneRunsPast | src-tauri/src/logging.rs:398-427 | the value of every key is masked where no key inside a masked value has a value running past it |
| SecretCoverage.ValueCanStay | src-tauri/src/logging.rs:398-427 | in `secret:token =b` one value is masked and the value of `token` is not |
| SecretCoverage.NameCanMask | src-tauri/src/logging.rs:415-423 | in `secret="token"secret=b` the value of `token` runs past a masked one and every value is masked |
| SecretMask.MaskingIsIdempotent | src-tauri/src/logging.rs:409-427 | masking again changes nothing |
| SecretMask.ValueBoundaries | src-tauri/src/logging.rs:459-481 | a value begins and ends at character boundaries even when a backslash skips into a character |
| SecretMask.NoneStaysNone | src-tauri/src/logging.rs:415-423 | a key without a value does not come by one because a later value was masked |
| SecretMask.MaskIsTheValue | src-tauri/src/logging.rs:416-421 | the scan that found a value finds the mask in its place |
| UuidMask.RedactUuids | src-tauri/src/logging.rs:676-699 | ids that are words of their own are cut to four digits; none is left; slices are legal |
| UuidMask.NoIdLeft | src-tauri/src/logging.rs:681-696 | no id is left in what comes out, across cuts neither |
| UuidMask.ShorteningIsIdempotent | src-tauri/src/logging.rs:676-699 | shortening again changes nothing |
| UuidWords.WordIsShortened | src-tauri/src/logging.rs:676-699 | of an id between other text its first four digits and an ellipsis are left, and the text before and after is shortened as it would be alone |
| LogLimiter.SiteLimiter.Admit | src-tauri/src/logging.rs:186-212 | what becomes of the site's window and counters, and of no other site's |
| LogLimiter.SiteLimiter.Log | src-tauri/src/logging.rs:220-251 | which lines reach the file: the record, before it the notice of those held back, or nothing; the webview's always |
| LogLimiter.RecordsAreConserved | src-tauri/src/logging.rs:184-251 | per site and on any clock, records seen are those written, those notices count and those still held |
| LogLimiter.WindowHoldsFive | src-tauri/src/logging.rs:48-53 | of the records that come in in one of the site's own windows the first RECORDS_PER_SITE_WINDOW are written and no more, on any clock |
| LogLimiter.NoticeComesFirst | src-tauri/src/logging.rs:220-251 | a notice stands right before the record that ends the silence, and speaks of at least one |
| LogLimiter.RateIsBounded | src-tauri/src/logging.rs:48-53 | on a monotone clock any stretch of the length of a window holds fewer than 2 * RECORDS_PER_SITE_WINDOW records of a site and at most one notice |
| LogLimiter.BoundIsMet | src-tauri/src/logging.rs:200-208 | ten records reach that bound |
| AudioSlot.DeviceSlot.Switch | src-tauri/src/audio_slot.rs:71-110 | the engine at hand or a new one goes to the open, the last open is given up on, and a thread that cannot start leaves a new engine |
| DeviceRuns.OnlyTheLastSwitchIsReported | src-tauri/src/audio_slot.rs:112-131 | in every interleaving a report is of the last switch, under the device asked for, with no switch, park or report since |
| DeviceRuns.ReportIsTheThreads | src-tauri/src/audio_slot.rs:93-131 | the outcome reported of an open is the one its own thread sent, or that it stopped, its thread having died |
| DeviceRuns.ReportBringsTheEngine | src-tauri/src/audio_slot.rs:112-131 | with a report the slot has back the engine its switch gave the open, if the thread had finished, or one that no one ever had, if it had died |
| DeviceRuns.SwitchHandsOver | src-tauri/src/audio_slot.rs:71-110 | a switch gives the open the engine the slot holds, or else a new one; if its thread cannot start the slot has a new one and the old one is no one's |
| DeviceRuns.ReportedOnce | src-tauri/src/audio_slot.rs:112-131 | two reports are of two switches, in their order |
| DeviceRuns.AlwaysOneOfThree | src-tauri/src/audio_slot.rs:22-32 | the slot holds an engine, waits, or is parked (exactly when parked was last asked for), and no engine has two owners |
| DeviceRuns.AbandonedIsNotAdopted | src-tauri/src/audio_slot.rs:79-110 | an open that was given up on is never waited for again and its engine never comes back to the slot |
| DeviceRuns.DeviceIsLastAskedFor | src-tauri/src/audio_slot.rs:51-54 | device is the one last asked for |
| DeviceRuns.FinishedIsReported | src-tauri/src/audio_slot.rs:112-131 | an open that is through and waited for is reported by the next poll |
| HelpLink.Bridge.Waited | src-tauri/src/help_link.rs:125-128 | a wait ends with what the channel holds, with a failure if it was closed, or with the time up |
| HelpLink.Bridge.Receive | src-tauri/src/help_link.rs:141-159 | an answer settles the call it names, an event is handed on, anything else is nothing |
| BridgeSteps.SuccessIsItsOwnAnswer | src-tauri/src/help_link.rs:116-153 | in every interleaving a call succeeds only with the value of a frame that came in under its number |
| BridgeSteps.AnswerIsReturned | src-tauri/src/help_link.rs:116-153 | an answer, a value or the other end's error, that comes in for a call that waits, or has yet to send and then does, is what the call can return from then on and what it returns |
| BridgeSteps.UnsentHasEnded | src-tauri/src/help_link.rs:121-124 | a call whose frame did not go out returns that the connection has ended, whatever came in |
| BridgeSteps.TimedOutIsNotAnswered | src-tauri/src/help_link.rs:128-134 | a call whose time was up returns that it was not answered, whatever comes in after |
| BridgeSteps.SettlesOnce | src-tauri/src/help_link.rs:116-165 | a result once returned stands, whatever comes in later |
| BridgeSteps.OnlyWaitingArePending | src-tauri/src/help_link.rs:119-153 | the table holds only calls that still wait, unanswered |
| BridgeSteps.EmptyInTheEnd | src-tauri/src/help_link.rs:116-136 | when every call has returned the table is empty |
| BridgeSteps.CloseSettlesTheWaiting | src-tauri/src/help_link.rs:161-164 | at every moment after a close a call that was waiting or about to wait is out of the table, and has a closed channel or has returned as ended |
| BridgeSteps.CloseLeavesTimedOut | src-tauri/src/help_link.rs:161-164 | at every moment after it a call whose time was up is out of the table and returns, if it has, as not answered |
| CaptureRing.Ring.OnCapturedFrame | src-tauri/src/streaming.rs:1624-1641 | the samples are appended whole, at any wrap, or dropped whole |
| CaptureRing.Ring.TakeFrame | src-tauri/src/streaming.rs:2299-2325 | one frame is copied, from both slices, into the buffer's front and taken off the queue, or nothing happens |
| CaptureRing.Ring.DiscardQueued | src-tauri/src/streaming.rs:1587-1593 | what was counted is dropped and what came in since stays |
| CaptureRing.ChunkAppends | src-tauri/src/streaming.rs:1624-1636 | writing a chunk as two slices appends it to the queue, wherever the array wraps |
| CaptureRing.ChunkTakes | src-tauri/src/streaming.rs:2306-2313 | the two slices of a read are the oldest samples, and what is left begins behind them |
| CaptureStream.TakenIsAcceptedInOrder | src-tauri/src/streaming.rs:1624-1641 | over every run of captures, reads, discards, rings opened and rings put in place what is taken from a ring is its accepted blocks in order without a gap |
| CaptureStream.SentFramesAreAligned | src-tauri/src/streaming.rs:2299-2325 | every take begins at a frame boundary of its ring and is whole frames |
| CaptureStream.ReadTakesTheOldest | src-tauri/src/streaming.rs:2299-2325 | the send thread takes the oldest frame of the current ring whenever a whole one waits, and touches nothing else |
| CaptureStream.DiscardDropsTheOld | src-tauri/src/streaming.rs:1587-1593 | what waited when it was counted is thrown away and what came in since stays, whatever happens in between |
| CaptureStream.RunsAreSound | src-tauri/src/streaming.rs:2293-2325 | what waits in any ring is whole frames within its capacity, at every moment of a discard too |
| CaptureStream.ReadFromObject | src-tauri/src/streaming.rs:2304-2316 | the ring object's read is the model's |
| Mixer.MixerState.KeepOnly | src-tauri/src/mixer.rs:165-181 | the strips are exactly those of the ids, survivors as they were and newcomers at the default; the revision rises exactly if that changed anything |
| Mixer.MixerState.SetPeer | src-tauri/src/mixer.rs:221-241 | changes one known strip, and the revision exactly if the strip differs; says if the peer is unknown |
| Mixer.MixerState.SetLocal | src-tauri/src/mixer.rs:210-219 | changes the microphone's strip, and the revision exactly if it differs |
| Mixer.Retained | src-tauri/src/mixer.rs:170-172 | comparing the number of strips tells whether any was dropped |
| MixerFaders.PeerStandsWherePut | src-tauri/src/mixer.rs:221-307 | over any run a participant's volume, pan and mute stand where they were last put, within their limits, as long as the participant stays |
| MixerFaders.LocalStandsWherePut | src-tauri/src/mixer.rs:210-268 | so do the microphone's |
| MixerFaders.NewcomersStandAtDefault | src-tauri/src/mixer.rs:165-181 | a strip that was not there comes with keeping its participant and stands at the default |
| MixerAnnouncements.RevisionsIdentify | src-tauri/src/mixer.rs:87-96 | over every run of changes one revision is one snapshot |
| MixerAnnouncements.ReaderCatchesUp | src-tauri/src/mixer.rs:142-163 | a reader that keeps what is not older shows the mixer as it is once all announcements, in any order, have arrived |
| MixerAnnouncements.ShownNeverGoesBack | src-tauri/src/mixer.rs:90-92 | what a reader shows never goes back and is always one the mixer stood at |
| Watchdog.StartUp | src-tauri/src/lib.rs:149-151 | looking for an incident, keeping or queueing it and installing the watchdog, in this order, is one start of the model |
| Watchdog.Watchdog.Check | src-tauri/src/watchdog.rs:278-304 | a stage past its limit is recorded once, with its time capped to 32 bits, and not after a clean exit |
| LaunchRecords.IncidentIsKept | src-tauri/src/usage.rs:127-164 | with reporting off an incident is pending in every later launch, over any number of clean restarts and handovers, until it is answered or a newer one comes |
| LaunchRecords.UncleanEndIsOwed | src-tauri/src/watchdog.rs:149-174 | a launch that does not end cleanly is owed for, by its hang or as a kill, under its own name |
| LaunchStages.MarkerIsInPlace | src-tauri/src/watchdog.rs:217-276 | while an app runs its marker is in place, unless it was handed over and that did not fail |
| LaunchStages.WhatAnEndLeaves | src-tauri/src/watchdog.rs:255-276 | a clean exit or an end after a handover leaves nothing to be taken for a kill; any other end is found as one unless a hang was recorded |
| LaunchStages.OverrunIsRecorded | src-tauri/src/watchdog.rs:279-304 | a stage is recorded the first time it is seen past its limit, by name and capped time, and not again |
| LaunchStages.NothingIsRecordedOutside | src-tauri/src/watchdog.rs:279-304 | with no stage under way looking records nothing |
| LaunchStages.OverrunIsOwed | src-tauri/src/watchdog.rs:160-174 | a launch one of whose stages was seen past its limit is owed for a hang however it ends |
| LaunchStages.AnsweredIsSettled | src-tauri/src/usage.rs:170-178 | what was answered is not asked about or reported again, over any uneventful stretch |
| LaunchRecords.ReportingSettles | src-tauri/src/usage.rs:148-154 | with reporting on what is owed is queued at the next start and nothing is left to find |
| LaunchRecords.NoIncidentWithoutCause | src-tauri/src/watchdog.rs:118-174 | every incident asked about or queued was recorded by the watchdog of the launch it names, or that launch was ended with its marker in place |
| LaunchRecords.GoodRunsAskNothing | src-tauri/src/watchdog.rs:217-276 | runs of clean exits and completed handovers with no stage past its limit have nothing to ask about |
| ProcessTree.Descendants | src/perf.rs:205-227 | for every table, cycles included, and every order of going through it the loop ends with the least set that holds the own process and the children, not threads, of its members, each once |
| ProcessTree.FamilyIsDescent | src/perf.rs:213-223 | that set is exactly the processes with a line of parents up to the own one |
| ProcessTree.LeastFamilyIsUnique | src/perf.rs:211-227 | every order finds the same processes |

## Left out

- Sockets, windows, commands, files failing to be written, parsing of JSON and of command lines: plumbing.
- Floating point rounding, the Hann window and the sine itself: samples and twiddles are exact reals.
- `observe`, `inject` and `wav` of `src-tauri/src/audio_tap.rs`: a bounded append, a fill and a fixed header.
- HelpAgreement.SidesAgreeExactly: is about runs in which nothing between the two is lost and neither leaves; messages lost, or an app closed without a word, leave the other side helping or helped.
- HelpInOrder.StopEndsNothingLater: is about stops from the helper; those of the helped side are among the answers of HelpAnswers.AnswerIsToTheLastRequest.
- SettingsHelp.Help.ReceiveAt: participants are numbers and session numbers are strings; that a number is 32 lowercase hex digits is checked, how it is made is not modelled.
- The event queue between `Help` and the screen in `src-tauri/src/signaling.rs`: the shadow is stated on the order in which `Help` gives its events.
- LogLimiter.RateIsBounded: two threads may read the clock in one order and enter the lock in the other; the bound is for a clock that does not go back.
- `redact_network_identifiers`, `replace_known`, `redact_home_dir` and device names of `src-tauri/src/logging.rs`: the standard address parsers they rest on are not part of this model.
- `AsioSwitch` of `src-tauri/src/audio_slot.rs`: an open without an engine to hand back, a simpler case of the slot.
- BridgeSteps.EmptyInTheEnd: a call whose future is dropped before it returns leaves its entry until it is answered or the connection closes; that is not a step here.
- CaptureStream.TakenIsAcceptedInOrder: what is done to a frame between the ring and the wire (mute, volume, pan, encoding) is not modelled.
- MixerAnnouncements.ReaderCatchesUp: an announcement that the window system fails to deliver is not a step.
- LaunchRecords.IncidentIsKept: startup is one step, hang records are readable, and reporting does not change while the app runs.
- LaunchRecords.NoIncidentWithoutCause: crash reports, the other record a launch may leave, are not part of this model.
- The order and number of children that `finish` of `src/perf.rs` names, and the sums over them.
