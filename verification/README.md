# Verification of the mybot device SDK

A Dafny model of six parts of the mybot device SDK, and proofs of what they promise on every input
and in every run.

- **JSON** (`CText`, `JsonGrammar`, `JsonParser`, `JsonPrinter`, `JsonRoundTrip`, `JsonUnicode`,
  `JsonLiterals`, `JsonSpelling`, `JsonCompact`, `JsonAccepted`): the parser and printer as cursor loops
  over byte buffers, tied to a grammar. The parser accepts exactly the texts that spell a tree as RFC 8259
  has it, the printer writes exactly the shortest one, and printing and parsing undo each other.
- **Device lifecycle** (`LifecycleState`, `LifecycleSafety`, `LifecycleRuns`, `LifecycleEffects`,
  `LifecycleOutcomes`, `Lifecycle`): the state machine driven by ticks, background results, network
  reports and requests. Server replies, store outcomes and the steps of other threads are arbitrary
  inputs. A monitor that sees only the trace states the protocol; what each request, reply and status leads to is stated as a
  whole new state.
- **HTTP framing** (`HttpChunked`, `HttpChunkedProof`, `HttpFraming`, `HttpFramingProof`, `HttpFields`,
  `HttpMessages`): the chunked decoder and the response parser against their grammars, and the
  early-completion scan against the final parser.
- **Ring buffer** (`Arithmetic`, `RingMachine`, `RingProgress`, `RingBuf`): every interleaving of one producer
  and one consumer, that their calls get done, and the ring as an object over an array.
- **Playback and announcements** (`PlaybackState`, `PlaybackRuns`, `PlaybackContinuity`, `PlaybackEffects`,
  `Playback`, `Announce`): partial device writes, generation tags, the echo-cancellation reference, and sounds
  streamed by short reads.
- **Device commands and mixer** (`DeviceCommand`, `DeviceCommandOrder`, `DeviceCommandMeaning`,
  `CommandSession`, `Mixer`): the bit-mask field reader, the duplicate filter, and the two volume scalings.

Where the program changes state in place, the model is a class or a loop whose contract equates the
result with a specification function; the promises are then proved about that function, over whole
runs where they concern runs. `dafny verify dfyconfig.toml` checks everything.

Three promises hold only under a condition, which is proved. The early stop of an HTTP response is
final exactly if no field names the chunked coding, because the scan looks at Content-Length alone. A
command received before a start or stop of a conversation can be run after it exactly if it arrived
between conversations, without a sender name and not over a channel: a start refused early then leaves
everything the guard compares. Playback skips nothing unless it is flushed, gives way to an
announcement, finds its generation outdated or the device fails.

## Model

| member | source | states |
|---|---|---|
| JsonRoundTrip.RoundTrip | src/support/mybot_json.c:539-882 | Parsing the printed text of any printable tree gives the tree back, member order and repeated names included, exactly if its containers nest at most 32 deep; a deeper one is refused. |
| JsonRoundTrip.ValueParses | src/support/mybot_json.c:561-625 | At any place in a text and at any depth, a printed value parses to itself with the cursor behind it, or is refused for its depth alone. |
| JsonRoundTrip.StringParses | src/support/mybot_json.c:275-516 | The escaped and quoted form of any NUL-free string decodes to that string. |
| JsonRoundTrip.IntegerParses | src/support/mybot_json.c:105-228 | The decimal form of any 64-bit integer parses to that integer; the overflow checks never refuse one. |
| JsonRoundTrip.IntegerExact | src/support/mybot_json.c:105-206 | The decimal text of an integer of any size is accepted exactly if it fits 64 bits, and then is that integer. |
| JsonRoundTrip.SpacesAround | src/support/mybot_json.c:530-553 | Whitespace around a printed value changes nothing; anything else behind it makes the text refused. |
| JsonSpelling.ParsesExactlySpellings | src/support/mybot_json.c:539-792 | For every NUL-free text: it is accepted with a tree exactly if it spells that tree, with whitespace wherever RFC 8259 lets it stand and any escapes and numerals, and the tree nests at most 32 deep. |
| JsonSpelling.SpelledTextParses | src/support/mybot_json.c:561-792 | Every spelling of a tree, whatever whitespace surrounds its brackets, commas, colons, names and values, parses to that tree or is refused for its depth alone. |
| JsonSpelling.SpellingParses | src/support/mybot_json.c:561-625 | At any place and depth a spelled value parses to the tree it spells. |
| JsonSpelling.ValueSpelt | src/support/mybot_json.c:561-592 | What the parser takes for a value is a spelling of the tree it gives. |
| JsonLiterals.SpeltStringParses | src/support/mybot_json.c:275-452 | Every spelling of a string out of plain bytes, short escapes and code-point escapes is read as the bytes it stands for. |
| JsonLiterals.StringSpelt | src/support/mybot_json.c:275-452 | What is read as a string was such a spelling of it. |
| JsonLiterals.NumeralParses | src/support/mybot_json.c:105-206 | A numeral of section 6 of RFC 8259 is read as its exact value, or refused outside the limits. |
| JsonLiterals.NumberSpelt | src/support/mybot_json.c:105-206 | What is read as a number was a numeral that means it. |
| JsonLiterals.RangeIsExact | src/support/mybot_json.c:185-202 | The range check by integer products accepts exactly the values from -2^63 up to but without 2^63. |
| JsonCompact.PrintsExactlyCompact | src/support/mybot_json.c:455-882 | A text is the printed form of a tree exactly if it spells it without whitespace, with whole numbers in plain decimal digits, and with the shortest escapes and only where one is needed. |
| CText.HexTables | src/support/mybot_json.c:230-271 | Each of the digits 0-9, a-f and A-F is read as its place in the table. |
| CText.NibbleOf | src/support/mybot_http_client.c:435-447 | A byte taken for a hex digit is one of the tables, and is read as its place there. |
| JsonUnicode.EscapedCodePointParses | src/support/mybot_json.c:304-335 | Every escaped code point, alone or as a surrogate pair and with digits in either case, decodes to its UTF-8 encoding. |
| JsonUnicode.BareSurrogateRefused | src/support/mybot_json.c:314-319 | An escaped U+0000 or low surrogate without its high one is refused. |
| JsonUnicode.Utf8ReadsBack | src/support/mybot_json.c:408-436 | What is written for a code point is UTF-8 for exactly it (RFC 3629 section 3), whatever follows. |
| JsonUnicode.PairsAreCodePoints | src/support/mybot_json.c:397-406 | A surrogate pair can be recovered from the code point computed for it. |
| JsonUnicode.CodePointsArePairs | src/support/mybot_json.c:397-406 | Every supplementary code point is the value of a surrogate pair. |
| JsonAccepted.AcceptedValue | src/support/mybot_json.c:561-792 | Every accepted value respects the nesting bound and, numbers with fractions aside, can be printed. |
| JsonAccepted.Reparse | src/support/mybot_json.c:539-625 | Printing an accepted tree of whole numbers and parsing the text gives the same tree. |
| JsonAccepted.PrescanDropsNothing | src/core/mybot_app.c:316-330 | For every text: if the parser accepts it, the pre-scan for an escaped U+0000 does not flag it. |
| JsonAccepted.ContainsEscapedNul | src/core/mybot_app.c:316-330 | The scanning loop reports exactly whether some escape sequence of the text is U+0000. |
| JsonAccepted.FlagsExactlyEscapedNul | src/core/mybot_app.c:316-330 | A text is flagged exactly if, cut into plain bytes and backslash pairs from its start, it has the escape of U+0000 behind some of them. |
| JsonAccepted.CleanEscape | src/support/mybot_json.c:288-340 | An escape the validator accepts is skipped by the pre-scan without a flag and without losing step. |
| JsonParser.SkipSpace | src/support/mybot_json.c:530-536 | Stops at the first byte that is none of space, tab, LF, CR. |
| JsonParser.ParseHex4 | src/support/mybot_json.c:230-271 | Four hex digits as a number; JsonLiterals and CText tie it to the digits of the tables. |
| JsonParser.CheckEscape | src/support/mybot_json.c:294-339 | Accepts exactly the escape sequences of the grammar and ends behind them. |
| JsonParser.CheckChars | src/support/mybot_json.c:288-340 | The validating pass accepts exactly the string bodies of the grammar. |
| JsonParser.MeasureChars | src/support/mybot_json.c:342-344 | The length pass counts one per escape pair or plain byte. |
| JsonParser.WalkCovers | src/support/mybot_json.c:342-347 | The measured length is at least the number of bytes the decoded string has. |
| JsonParser.PutUtf8 | src/support/mybot_json.c:408-436 | Writes the UTF-8 encoding (RFC 3629 section 3) of a code point from its last byte backwards and nothing before it. |
| JsonParser.DecodeUnicode | src/support/mybot_json.c:374-438 | On a validated escape the decoder takes none of its own error exits and writes the encoding of the code point or surrogate pair. |
| JsonParser.DecodeChars | src/support/mybot_json.c:346-452 | Decoding a validated body into a buffer of the measured size stays in bounds and gives the value of the grammar. |
| JsonParser.ParseString | src/support/mybot_json.c:275-452 | Validation, measuring and decoding together give exactly the grammar's string or refuse. |
| JsonParser.ParseNumber | src/support/mybot_json.c:105-206 | Accepts exactly the grammar's numbers; integers overflow neither 64-bit limit unnoticed. |
| JsonParser.ParseScaled | src/support/mybot_json.c:152-202 | A number with a fraction or exponent is its exact decimal value, refused outside the 64-bit range. |
| JsonParser.ParseValue | src/support/mybot_json.c:561-592 | The recursive parser gives exactly the grammar's value or refuses. |
| JsonParser.ParseArray | src/support/mybot_json.c:628-664 | The array loop gives the grammar's items in order; nesting beyond 32 is refused. |
| JsonParser.ParseObject | src/support/mybot_json.c:738-792 | The object loop gives the grammar's members in order, repeated names kept. |
| JsonParser.ParseText | src/support/mybot_json.c:539-553 | A text is accepted exactly if one value and only whitespace fill it. |
| JsonPrinter.PutEscape | src/support/mybot_json.c:482-511 | Writes the escape of one byte and nothing before it. |
| JsonPrinter.MeasureEscaped | src/support/mybot_json.c:464-470 | The sizing pass counts exactly the escaped length. |
| JsonPrinter.PrintStringPtr | src/support/mybot_json.c:455-516 | The string printer fills a buffer of the measured size exactly, in bounds. |
| JsonPrinter.PrintNumber | src/support/mybot_json.c:209-215 | Every 64-bit integer prints within 21 bytes, terminator included. |
| JsonPrinter.PrintValue | src/support/mybot_json.c:595-625 | The recursive printer gives the printed form of every printable value. |
| JsonPrinter.PrintArray | src/support/mybot_json.c:667-735 | Sizing and composing an array cover every byte written. |
| JsonPrinter.ComposeArray | src/support/mybot_json.c:717-735 | Within the size computed from the printed items, the items and separators are laid out in order. |
| JsonPrinter.PrintObject | src/support/mybot_json.c:795-882 | Sizing and composing an object cover every byte written. |
| JsonPrinter.ComposeObject | src/support/mybot_json.c:858-882 | Within the computed size, names, colons, values and separators are laid out in order. |
| JsonPrinter.PrintUnformatted | src/support/mybot_json.c:539-558 | The text the printer returns, the parser reads back to the same tree, exactly up to nesting 32. |
| LifecycleRuns.ConversationsAlternate | src/core/mybot_device_lifecycle.c:390-486 | At every stage of every run, also in the middle of an event, starts and stops of conversations alternate, and at most one stop notification has been queued since the latest start. |
| LifecycleRuns.ConversationIsOpen | src/core/mybot_device_lifecycle.c:390-486 | Between events of every run the device is in a conversation exactly while one is open, has a non-empty id exactly then, and that id is the one started last. |
| LifecycleRuns.StopNamesItsOwn | src/core/mybot_device_lifecycle.c:462-486 | A queued stop notification carries the id of the conversation that has just ended, and is the first one since that started. |
| LifecycleRuns.AppliedWithHeldCredential | src/core/mybot_device_lifecycle.c:603-628 | In every run a background result is only applied if it was obtained with the credential the device holds at that moment. |
| LifecycleRuns.OnePollInFlight | src/core/mybot_device_lifecycle.c:251-264 | In every run at most one binding poll is in flight, across re-pairing and reconnects. |
| LifecycleRuns.RestartRestores | src/core/mybot_device_lifecycle.c:288-305 | In every run a bound device has a token and, restarted over its readable store, comes back bound with that token, whatever store writes and erases failed before. |
| LifecycleRuns.ForeignRecordIgnored | src/core/mybot_device_lifecycle.c:113-145 | Power-up becomes bound exactly over a readable record of this version, server and device with a token; otherwise it starts pairing. |
| LifecycleRuns.FirstTickAfterLoss | src/core/mybot_device_lifecycle.c:635-644 | Whatever happens between a network loss and the next tick, that tick leaves no conversation, no start or stop request and queues nothing, even if the network is back. |
| LifecycleRuns.LossStaysPending | src/core/mybot_device_lifecycle.c:740-748 | Nothing but a tick takes back a noted loss. |
| LifecycleRuns.ShutdownIsFinal | src/core/mybot_device_lifecycle.c:750-764 | Shutdown ends an open conversation; afterwards starts and stops are balanced and no event starts, stops or queues anything. |
| LifecycleRuns.AsksAgain | src/core/mybot_device_lifecycle.c:656-684 | From any unprovisioned state of any run, as many online ticks as are left of the wait bring a new pair-code request, however many other ticks and events lie between them, short of a shutdown. |
| LifecycleRuns.NeverStranded | src/core/mybot_device_lifecycle.c:630-684 | Between events of any run the pairing state is never visible, and before shutdown an unprovisioned device is asked to pair or has 1 to 600 ticks left to wait. |
| LifecycleRuns.AnswersNeverStraddleLoss | src/core/mybot_device_lifecycle.c:168-183 | In every run a pair code, a conversation or a renewed token is the answer to the request made last, with no network loss observed in between. |
| LifecycleRuns.ResultsNeverStraddleLoss | src/core/mybot_device_lifecycle.c:603-615 | In every run a background result is used only if its request was queued and no network loss was observed between that and its use. |
| LifecycleRuns.TokensNeverStraddleLoss | src/core/mybot_device_lifecycle.c:288-305 | In every run a device token is taken from the result of a pairing poll asked for with the pair token still held, with no network loss observed since it was asked for. |
| LifecycleRuns.TokenHasOrigin | src/core/mybot_device_lifecycle.c:288-305 | In every run a token the device holds was the usable one in the store at power-up or was taken so. |
| LifecycleRuns.OnlineTickProgresses | src/core/mybot_device_lifecycle.c:670-679 | A tick that finds the network both times it looks asks for a code or comes one tick closer to it, whatever the network does in between. |
| LifecycleRuns.AnyTickWaits | src/core/mybot_device_lifecycle.c:630-684 | Any other tick of an unprovisioned device asks or leaves it no further from asking. |
| LifecycleRuns.WaitDoubles | src/core/mybot_device_lifecycle.c:89-94 | The k-th wait of the back-off is min(initial * 2^(k-1), maximum). |
| LifecycleRuns.RetryDelayInRuns | src/core/mybot_device_lifecycle.c:184-193 | In every run the pair-code delay after k failures since the last code is min(30 * 2^(k-1), 600) ticks, and never more are left. |
| LifecycleRuns.RefusalStartsWait | src/core/mybot_device_lifecycle.c:184-193 | A failed request starts the full wait for its failure count. |
| LifecycleRuns.RenewalBacksOff | src/core/mybot_device_lifecycle.c:378-385 | In every run the renewal delay after k failures is min(10 * 2^(k-1), 100) ticks and never more are left; k counts afresh from each new request, success, start and stop. |
| LifecycleRuns.FailedRenewalStartsWait | src/core/mybot_device_lifecycle.c:378-385 | A failed renewal starts the full wait for its failure count. |
| LifecycleEffects.StartBringsConversation | src/core/mybot_device_lifecycle.c:390-448 | A start request asks the server once and, if the answer still counts, enters the conversation it names, whatever other threads do meanwhile. |
| LifecycleEffects.RejectedStartRestartsPairing | src/core/mybot_device_lifecycle.c:412-416 | A start refused with 401, 403 or 409 forgets the token and, if it can be erased, its record, under a new binding generation, and asks for pairing, whatever other threads do meanwhile. |
| LifecycleEffects.StopIsNotified | src/core/mybot_device_lifecycle.c:710-719 | A stop request ends the conversation and queues one notification with its id, its reason and the current token. |
| LifecycleEffects.ClaimProvisions | src/core/mybot_device_lifecycle.c:288-305 | A current reply that the code was claimed provisions the device with the token it carries, stored. |
| LifecycleEffects.ClaimIsPolled | src/core/mybot_device_lifecycle.c:686-695 | Exactly when the interval of an unclaimed pair code has passed in online ticks, one pairing poll with its token is queued if the queue takes it, and nothing else has changed. |
| LifecycleEffects.RuntimeIsPolled | src/core/mybot_device_lifecycle.c:359-366 | In runtime and in a conversation, exactly when the interval has passed in online ticks without a request, one device poll with both generations and the device token is queued if the queue takes it, and nothing else has changed. |
| LifecycleOutcomes.PowerUp | src/core/mybot_device_lifecycle.c:559-601 | Power-up is bound exactly over a readable record of 1284 bytes, layout 1, this server and device with a token, and starts online, idle and with nothing in flight. |
| LifecycleOutcomes.RequestsAreTaken | src/core/mybot_device_lifecycle.c:766-817 | Each request is noted in its own mailbox exactly where it can be met, and changes nothing else. |
| LifecycleOutcomes.NetworkIsReported | src/core/mybot_device_lifecycle.c:740-748 | A report that the network is there makes it available; the three steps of a report of its loss make it unavailable, move its generation on and leave the loss to the next tick. |
| LifecycleOutcomes.NoNetworkIsServed | src/core/mybot_device_lifecycle.c:635-650 | A tick without network, or after a noted loss, drops the requests, and after a loss the conversation too, and does nothing else. |
| LifecycleOutcomes.HangUpIsServed | src/core/mybot_device_lifecycle.c:710-719 | After a hang-up or an RTC error the next tick ends the conversation and notifies the server with that reason. |
| LifecycleOutcomes.PairingEndsConversation | src/core/mybot_device_lifecycle.c:656-668 | A pairing request in a conversation first ends it as user requested, then forgets the binding and asks for a code. |
| LifecycleOutcomes.PairingIsServed | src/core/mybot_device_lifecycle.c:656-668 | A pairing request in any other mode forgets the binding and asks for a code, which is adopted or put off by the reply. |
| LifecycleOutcomes.RetryIsServed | src/core/mybot_device_lifecycle.c:670-684 | The last tick of the wait asks for a code again. |
| LifecycleOutcomes.StartIsServed | src/core/mybot_device_lifecycle.c:390-448 | A start request is answered reply by reply: rejected, failed, without a usable id, or entered with the names of the reply. |
| LifecycleOutcomes.RenewalIsServed | src/core/mybot_device_lifecycle.c:504-553 | A due renewal is answered reply by reply: rejected, gone, failed, for another channel or user, not accepted, or done. |
| LifecycleOutcomes.NamelessRenewalStops | src/core/mybot_device_lifecycle.c:504-513 | A due renewal without RTC names ends the conversation as an error. |
| LifecycleOutcomes.RenewalWaits | src/core/mybot_device_lifecycle.c:726-735 | A renewal that is not due counts down one tick, and the binding is polled as usual. |
| LifecycleOutcomes.UnwantedIsDropped | src/core/mybot_device_lifecycle.c:603-615 | A result for another network or binding generation, another mode, or while pairing is requested returns its poll slot and changes nothing else. |
| LifecycleOutcomes.PairPollIsServed | src/core/mybot_device_lifecycle.c:269-321 | A wanted pairing result acts by its status: pending, bound, expired, failed, unbound, or none of them. |
| LifecycleOutcomes.DevicePollIsServed | src/core/mybot_device_lifecycle.c:335-357 | A wanted device result acts by its status: bound, unbound, or neither. |
| LifecycleOutcomes.StopNoticeIsServed | src/core/mybot_device_lifecycle.c:488-502 | A wanted stop result matters only if it is a rejection. |
| LifecycleOutcomes.ShutdownIsServed | src/core/mybot_device_lifecycle.c:750-764 | Shutdown drops the requests and ends a conversation, notifying the server only while online. |
| LifecycleSafety.Alternates | src/core/mybot_device_lifecycle.c:390-486 | A trace the monitor accepts has as many stops as starts, or one start more while talking. |
| LifecycleSafety.CurrentMeansNoLoss | src/core/mybot_device_lifecycle.c:48-52 | If a request still counts as current after the call, no loss was observed since its snapshot, even with loss reports half done. |
| LifecycleSafety.CreatePairCodeKeeps | src/core/mybot_device_lifecycle.c:164-215 | A pair-code request keeps the invariant under network events at each of its steps; a reply that straddled a loss is not taken. |
| LifecycleSafety.PollKeeps | src/core/mybot_device_lifecycle.c:251-264 | Submitting a poll keeps one poll in flight and its credential current. |
| LifecycleSafety.CompleteKeeps | src/core/mybot_device_lifecycle.c:453-460 | Ending a conversation locally keeps the invariant, and if no loss was observed meanwhile its stop may still be queued. |
| LifecycleSafety.StopKeeps | src/core/mybot_device_lifecycle.c:462-486 | Stopping queues at most one notification and only without a loss in between. |
| LifecycleSafety.StartKeeps | src/core/mybot_device_lifecycle.c:390-448 | A start request keeps the invariant; no conversation begins on a reply that straddled a loss. |
| LifecycleSafety.RenewKeeps | src/core/mybot_device_lifecycle.c:504-553 | Token renewal keeps the invariant; a token from a reply that straddled a loss is not passed on. |
| LifecycleSafety.BoundKeeps | src/core/mybot_device_lifecycle.c:288-305 | Adopting and persisting a token keeps store and token in agreement whichever way the write fails. |
| LifecycleSafety.ResultKeeps | src/core/mybot_device_lifecycle.c:603-628 | Any background result, stale or not, keeps the invariant. |
| LifecycleSafety.TickKeeps | src/core/mybot_device_lifecycle.c:630-738 | Any tick keeps the invariant. |
| LifecycleSafety.TickLossKeeps | src/core/mybot_device_lifecycle.c:635-644 | The tick that consumes a loss ends the conversation and queues nothing. |
| LifecycleSafety.ShutdownKeeps | src/core/mybot_device_lifecycle.c:750-764 | Shutdown keeps the invariant and leaves no conversation. |
| LifecycleSafety.InitKeeps | src/core/mybot_device_lifecycle.c:559-601 | Power-up over any store establishes the invariant. |
| LifecycleSafety.StepKeeps | src/core/mybot_device_lifecycle.c:603-817 | Every event keeps the invariant. |
| LifecycleSafety.RunKeeps | src/core/mybot_device_lifecycle.c:603-817 | Every run keeps the invariant. |
| LifecycleState.ClampPoll | src/core/mybot_device_lifecycle.c:79-87 | A poll interval is the one of 3 to 60 seconds nearest to what was asked for. |
| Lifecycle.Lifecycle.constructor | src/core/mybot_device_lifecycle.c:559-601 | A fresh object is in the specified power-up state, over any store, and satisfies the invariant. |
| Lifecycle.Lifecycle.Begin | src/core/mybot_device_lifecycle.c:559-601 | Power-up becomes bound over an adopted credential, and otherwise asks for pairing. |
| Lifecycle.Lifecycle.LoadDeviceAuth | src/core/mybot_device_lifecycle.c:113-145 | Adopts the stored token exactly if the record is usable, and drops any other record it can erase. |
| Lifecycle.Lifecycle.SetNetworkAvailable | src/core/mybot_device_lifecycle.c:740-743 | The first, observable part of a network report. |
| Lifecycle.Lifecycle.FinishLoss | src/core/mybot_device_lifecycle.c:744-745 | The two writes that follow an observed loss, one at a time. |
| Lifecycle.Lifecycle.NotifyConversationEnded | src/core/mybot_device_lifecycle.c:796-805 | Leaves a stop request for the control owner while in a conversation. |
| Lifecycle.Lifecycle.RequestRtcTokenRenewal | src/core/mybot_device_lifecycle.c:807-817 | Leaves a renewal request while online and in a conversation. |
| Lifecycle.Lifecycle.SetState | src/core/mybot_device_lifecycle.c:54-73 | Changing mode drops the stop request of a conversation that is left. |
| Lifecycle.Lifecycle.ClearDeviceAuth | src/core/mybot_device_lifecycle.c:147-153 | Forgets the token under a new binding generation. |
| Lifecycle.Lifecycle.RestartPairingAfterRejection | src/core/mybot_device_lifecycle.c:155-159 | Forgets the token and asks for pairing. |
| Lifecycle.Lifecycle.ActionCreatePairCode | src/core/mybot_device_lifecycle.c:164-215 | The pair-code request as specified, under events at each step. |
| Lifecycle.Lifecycle.PairCodeFailed | src/core/mybot_device_lifecycle.c:184-193 | A failure doubles the wait and starts it. |
| Lifecycle.Lifecycle.PairCodeObtained | src/core/mybot_device_lifecycle.c:195-214 | A pair token is adopted under a new binding generation, the device token forgotten. |
| Lifecycle.Lifecycle.CreateServiceRequest | src/core/mybot_device_lifecycle.c:220-238 | A request is a snapshot of both generations and of the credential for its kind. |
| Lifecycle.Lifecycle.SubmitServiceRequest | src/core/mybot_device_lifecycle.c:240-249 | A request is in flight exactly if the queue took it. |
| Lifecycle.Lifecycle.ActionPollBinding | src/core/mybot_device_lifecycle.c:251-264 | No second poll is created while one is pending. |
| Lifecycle.Lifecycle.CompleteConversationLocally | src/core/mybot_device_lifecycle.c:453-460 | Renewal state and id are cleared before the stop callback, the mode after it. |
| Lifecycle.Lifecycle.ActionStopConversation | src/core/mybot_device_lifecycle.c:462-486 | The notification is queued after local teardown, with the id saved before it, if still current. |
| Lifecycle.Lifecycle.InvalidateRuntimeBinding | src/core/mybot_device_lifecycle.c:328-333 | Ends a conversation if there is one, then restarts pairing. |
| Lifecycle.Lifecycle.ActionStartConversation | src/core/mybot_device_lifecycle.c:390-448 | The start request as specified, with every refusal. |
| Lifecycle.Lifecycle.ConversationStarted | src/core/mybot_device_lifecycle.c:425-445 | Id and RTC data are set before the mode, the mode before the callback. |
| Lifecycle.Lifecycle.ClearRtcTokenRenewal | src/core/mybot_device_lifecycle.c:368-376 | All renewal state and RTC names are reset. |
| Lifecycle.Lifecycle.ScheduleRtcTokenRetry | src/core/mybot_device_lifecycle.c:378-385 | The next wait of the renewal back-off starts. |
| Lifecycle.Lifecycle.ActionRenewRtcToken | src/core/mybot_device_lifecycle.c:504-521 | The renewal request as specified: without RTC names it stops, and a reply that is no longer current is dropped. |
| Lifecycle.Lifecycle.RenewalAnswered | src/core/mybot_device_lifecycle.c:522-553 | The reply to a renewal as specified: rejection, permanent failure, mismatch, retry. |
| Lifecycle.Lifecycle.PersistDeviceAuth | src/core/mybot_device_lifecycle.c:96-111 | The store holds this device's record after a write that took effect. |
| Lifecycle.Lifecycle.AdoptDeviceToken | src/core/mybot_device_lifecycle.c:288-305 | A new device token comes with a new binding generation. |
| Lifecycle.Lifecycle.ApplyBindingBound | src/core/mybot_device_lifecycle.c:288-305 | A bound reply provisions the device only once the record is written. |
| Lifecycle.Lifecycle.ApplyBindingPair | src/core/mybot_device_lifecycle.c:269-321 | The reply to a pairing poll as specified, status by status. |
| Lifecycle.Lifecycle.ApplyBindingRuntime | src/core/mybot_device_lifecycle.c:335-357 | The reply to a runtime poll as specified, status by status. |
| Lifecycle.Lifecycle.ApplyStopResult | src/core/mybot_device_lifecycle.c:488-502 | Only a rejected credential matters in the reply to a stop. |
| Lifecycle.Lifecycle.ServiceResult | src/core/mybot_device_lifecycle.c:603-628 | A result takes its request out of flight and keeps the invariant. |
| Lifecycle.Lifecycle.ApplyResult | src/core/mybot_device_lifecycle.c:603-628 | A result returns its poll slot and is dropped unless both generations still match. |
| Lifecycle.Lifecycle.TickRuntimeBindingPoll | src/core/mybot_device_lifecycle.c:359-366 | A runtime poll is due every interval. |
| Lifecycle.Lifecycle.TickPairingRequest | src/core/mybot_device_lifecycle.c:656-668 | A pairing request ends the conversation, forgets the binding and asks for a code. |
| Lifecycle.Lifecycle.TickInConversation | src/core/mybot_device_lifecycle.c:710-737 | Stop requests come before token renewal, renewal before polling. |
| Lifecycle.Lifecycle.TickByMode | src/core/mybot_device_lifecycle.c:656-737 | The online part of a tick as specified. |
| Lifecycle.Lifecycle.Tick | src/core/mybot_device_lifecycle.c:630-738 | The whole tick as specified. |
| Lifecycle.Lifecycle.Shutdown | src/core/mybot_device_lifecycle.c:750-764 | Shutdown as specified. |
| Lifecycle.Lifecycle.RequestPair | src/core/mybot_device_lifecycle.c:766-771 | Pairing is requested unless shutting down. |
| Lifecycle.Lifecycle.RequestStart | src/core/mybot_device_lifecycle.c:773-783 | A start is requested only online and in runtime. |
| Lifecycle.Lifecycle.RequestStop | src/core/mybot_device_lifecycle.c:785-794 | A stop is requested only in a conversation. |
| HttpChunkedProof.DecodesExactlyEncodings | src/support/mybot_http_client.c:423-510 | The decoder accepts exactly the encodings of well-formed chunked bodies (RFC 9112 section 7.1: sizes in hex digits of either case up to 2^64-1, extensions, trailers, final CRLF at the very end) and returns their data. |
| HttpChunkedProof.ExtensionRefused | src/support/mybot_http_client.c:423-510 | Anything appended to an accepted body makes it refused. |
| HttpChunkedProof.PrefixRefused | src/support/mybot_http_client.c:423-510 | Every strict prefix of an accepted body is refused. |
| HttpChunkedProof.ChunksDecode | src/support/mybot_http_client.c:434-505 | Every encoding of up to SIZE_MAX bytes decodes to its data. |
| HttpChunked.DechunkBody | src/support/mybot_http_client.c:423-510 | The loop gives exactly the decoded data and never writes outside its buffer of one byte more than the body. |
| HttpChunked.ReadSize | src/support/mybot_http_client.c:435-468 | A chunk-size line with its overflow check and extension. |
| HttpChunked.ReadTrailers | src/support/mybot_http_client.c:470-492 | Trailer lines are consumed up to an empty line at the very end. |
| HttpFramingProof.EarlyStopExact | src/support/mybot_http_client.c:101-136 | When the early scan says complete, the parser returns exactly the declared bytes for this buffer and every longer one, closed or not, if and only if no field names the chunked coding. |
| HttpFramingProof.EarlyStopCutsChunks | src/support/mybot_http_client.c:546-659 | A response that has both fields and one byte of its chunked body: the scan says complete, the parser refuses what has arrived, and would accept the whole body. |
| HttpFramingProof.EarlyStopIsFinal | src/support/mybot_http_client.c:546-659 | After an early stop without a chunked field, the parser's answer is the declared bytes whatever else arrives. |
| HttpFramingProof.CompleteSection | src/support/mybot_http_client.c:101-136 | The scan says complete exactly if the fields declare one agreed Content-Length that fits what has arrived. |
| HttpFramingProof.ParseSection | src/support/mybot_http_client.c:546-659 | What the parser makes of any well-formed header section and the bytes after it, in every case. |
| HttpFramingProof.FoldsAgree | src/support/mybot_http_client.c:101-136 | Scan and parser read the same length, or the same refusal, out of the same lines. |
| HttpFramingProof.LengthSpelt | src/support/mybot_http_client.c:512-540 | A Content-Length value is accepted exactly if it is digits between blanks, optionally before a CR, within SIZE_MAX, and means their number. |
| HttpMessages.ParsesExactlyMessages | src/support/mybot_http_client.c:546-659 | For every text: it parses to a response exactly if it is a status line with a code other than 000, field lines, an empty line and a body, lines ending in LF with or without CR and stray CRs as the parser takes them, and the body under what the field lines say is that response. |
| HttpMessages.HeadReads | src/support/mybot_http_client.c:564-625 | Every such head is read to its end, with what its field lines make of the fields, or refused for them alone. |
| HttpMessages.HeadSpelt | src/support/mybot_http_client.c:564-625 | What is read as a head was spelt so. |
| HttpFields.StatusIsExactly | src/support/mybot_http_client.c:403-416 | The code is the number of the three digits, exactly for HTTP/1.0 or 1.1, a space, three digits and a space. |
| HttpFields.NamesIs | src/support/mybot_http_client.c:586-599 | A field name counts exactly if its letters are those of the name, each in either case. |
| HttpFields.TokensAre | src/support/mybot_http_client.c:600-619 | The value names the chunked coding exactly if one of its comma-separated parts begins with that word in whatever case, up to a blank, a semicolon or the end. |
| HttpFields.FieldMeans | src/support/mybot_http_client.c:586-619 | What one line does to the length and the coding, told from its text. |
| HttpFields.FieldsTogether | src/support/mybot_http_client.c:564-625 | What all field lines say does not depend on their order: the one number every Content-Length gives, and chunked if one line names it. |
| HttpFraming.ParseContentLength | src/support/mybot_http_client.c:512-540 | The digit loop with its overflow check gives the specified length or refuses. |
| HttpFraming.FindHeaderEnd | src/support/mybot_http_client.c:102-111 | The position behind the first empty line. |
| HttpFraming.ResponseContentLengthComplete | src/support/mybot_http_client.c:101-136 | The scan over the receive buffer as specified. |
| HttpFraming.ParseStatusLine | src/support/mybot_http_client.c:405-416 | The status code of a well-formed status line, -1 for any other. |
| HttpFraming.TransferIsChunked | src/support/mybot_http_client.c:598-619 | Whether a token of the comma-separated value is chunked. |
| HttpFraming.ParseField | src/support/mybot_http_client.c:586-619 | One field line: repeated lengths must agree, chunked is noted. |
| HttpFraming.ParseHeaders | src/support/mybot_http_client.c:564-625 | The header loop up to the empty line. |
| HttpFraming.ParseResponse | src/support/mybot_http_client.c:546-659 | The whole parser as specified: framing by chunks, by length, or by the close of the connection. |
| RingMachine.ReadsPrefixOfWrites | src/support/mybot_ringbuf.c:78-140 | Under every interleaving of index reads, single byte copies in any order and index publications, the bytes read are a prefix of the bytes written, and never more are unread than the capacity. |
| RingMachine.NoConflict | src/support/mybot_ringbuf.c:95-102 | The producer never writes a cell whose byte the consumer may still read. |
| RingMachine.StepRefinesQueue | src/support/mybot_ringbuf.c:78-140 | Every step leaves the queue of unread bytes alone, appends one whole write, or removes one whole read. |
| RingMachine.CheckRoom | src/support/mybot_ringbuf.c:84-93 | A write goes ahead exactly if it fits beside the unread bytes at its tail snapshot. |
| RingMachine.ReadSucceeds | src/support/mybot_ringbuf.c:116-125 | A read goes ahead exactly if its bytes had been published at its head snapshot. |
| RingMachine.RoomIsKept | src/support/mybot_ringbuf.c:26-31 | Free space seen by the producer is still there for its next write, whatever the consumer does. |
| RingMachine.ConsumersOnlyFree | src/support/mybot_ringbuf.c:26-31 | Consumer steps never shrink the free space nor change what was written. |
| RingMachine.RunKeeps | src/support/mybot_ringbuf.c:78-140 | Every interleaving keeps the invariant on cells, indexes and both calls in progress. |
| RingMachine.Wraps | src/support/mybot_ringbuf.c:20-31 | The wrapped index difference is the true distance. |
| RingProgress.WriteCompletes | src/support/mybot_ringbuf.c:78-108 | A write that finds room when it starts publishes its bytes in one piece, whatever the reader does between its steps and in whatever order the bytes are copied. |
| RingProgress.ReadCompletes | src/support/mybot_ringbuf.c:110-140 | A read that finds its bytes when it starts takes the next ones ever pushed, whatever the writer does between its steps. |
| RingBuf.RingBuf.constructor | src/support/mybot_ringbuf.c:33-52 | A new ring is empty and has one cell more than its capacity. |
| RingBuf.RingBuf.Write | src/support/mybot_ringbuf.c:78-108 | The whole source goes behind the contents in at most two block copies, or nothing changes and -1 is returned. |
| RingBuf.RingBuf.Read | src/support/mybot_ringbuf.c:110-140 | The oldest bytes come out in order, or nothing changes and -1 is returned. |
| RingBuf.RingBuf.GetDataSize | src/support/mybot_ringbuf.c:20-24 | The number of bytes in the ring. |
| RingBuf.RingBuf.GetFreeSize | src/support/mybot_ringbuf.c:26-31 | The number of bytes that still fit. |
| PlaybackContinuity.NothingSkippedOrRepeated | src/media/mybot_media_pipeline.c:141-232 | From any reachable state, over any run without flush, announcement or change of generation and with any short writes, the device gets the received stream on from where it stood, no sample skipped or repeated. |
| PlaybackContinuity.StreamReachesDevice | src/media/mybot_media_pipeline.c:141-232 | Over such a run from power-up the device has got all of the stream that left the ring but the frames still to go. |
| PlaybackContinuity.NoFrameIsCut | src/media/mybot_media_pipeline.c:141-232 | Over any run, announcements included, a frame is given up before the device took all of it only for a flush, an announcement over RTC audio, an outdated generation or a failed write. |
| PlaybackContinuity.NothingPassedOver | src/media/mybot_media_pipeline.c:141-232 | Over any run, whatever the device does, a part of the stream leaves the ring without becoming a frame only for a flush or an active announcement. |
| PlaybackContinuity.WholeFramesOnly | src/media/mybot_media_pipeline.c:108-139 | From power-up, without such causes, the device gets whole frames only, among them every announcement read, in order and padded with silence. |
| PlaybackContinuity.UndisturbedTick | src/media/mybot_media_pipeline.c:141-232 | One tick carries the stream on where it stands; with audio and room for its reference, by exactly what the device took. |
| PlaybackContinuity.CalmTick | src/media/mybot_media_pipeline.c:141-232 | One tick without such causes gives up no frame, be it RTC audio or an announcement. |
| PlaybackContinuity.PassedOverHasCause | src/media/mybot_media_pipeline.c:141-232 | One tick without flush and announcement makes frames of all that leaves the ring. |
| PlaybackContinuity.WriteTakes | src/media/mybot_media_pipeline.c:198-231 | A write that succeeds takes the next samples of the frame and leaves the rest pending, other threads running meanwhile. |
| PlaybackContinuity.TickGuarded | src/media/mybot_media_pipeline.c:165-197 | While an announcement is active no RTC audio reaches the device, and samples do only under the generation in force when the write is authorized. |
| PlaybackRuns.DeviceGetsFramesInOrder | src/media/mybot_media_pipeline.c:141-232 | In every run, whatever lengths the device takes: it got the front part of each frame, frame after frame, each sample once and at the gain in force; RTC frames are cuts of the received stream in stream order, announcement frames the announcement's reads in order. |
| PlaybackRuns.ReferenceMirrorsDevice | src/media/mybot_media_pipeline.c:184-226 | In every run the echo-cancellation reference is exactly what the device took from RTC frames; the branch for a full reference ring after a write is never taken. |
| PlaybackRuns.FlushedIsNotPlayed | src/media/mybot_media_pipeline.c:154-163 | Nothing received before the latest flush is played after it. |
| PlaybackRuns.FlushCoversAll | src/media/mybot_media_pipeline.c:154-163 | A clear request or a changed announcement drops everything received until the drain ends, and the pending frame. |
| PlaybackEffects.FlushIsServed | src/media/mybot_media_pipeline.c:234-244 | A flush leaves the ring empty, no frame pending, the given generation and no clear request, and the device gets nothing in it. |
| PlaybackEffects.NothingOldIsPlayed | src/media/mybot_media_pipeline.c:234-244 | In every run after a flush, the RTC frames the device gets come from behind all that had been received when the flush was called. |
| PlaybackEffects.ClearDropsOld | src/media/mybot_media_pipeline.c:154-163 | So it is after a request to clear playback and after the announcement moved on, from the next tick on. |
| PlaybackEffects.ClearIsServedOnce | src/media/mybot_media_pipeline.c:154-163 | A clear request is gone after the flush it brings, short of another one made meanwhile. |
| PlaybackEffects.AnnouncementDropsOld | src/media/mybot_media_pipeline.c:165-176 | So it is after a tick under an active announcement. |
| PlaybackEffects.AnnouncementIsPlayed | src/media/mybot_media_pipeline.c:108-139 | The tick in which an announcement becomes active gives the device its first read, whatever RTC audio was being played. |
| PlaybackEffects.NothingIsAnnounced | src/media/mybot_media_pipeline.c:108-139 | A read of the announcement that gives nothing or claims too much plays nothing, and its generation is taken on. |
| PlaybackEffects.SilenceBehind | src/media/mybot_media_pipeline.c:108-121 | Behind the samples of a read the frame is silent. |
| PlaybackEffects.PlayIsServed | src/media/mybot_media_pipeline.c:184-197 | A frame waits for room for its reference, is given up if the announcement moved on, and is written otherwise. |
| PlaybackEffects.WriteIsServed | src/media/mybot_media_pipeline.c:198-231 | A write takes the next samples; the frame ends with its last ones, for an error, or if the announcement moved on meanwhile, and else stays with what is left. |
| PlaybackEffects.WriteAppliesVolume | src/media/mybot_media_pipeline.c:198-209 | What the device gets is the taken samples at the volume in force, and at full volume if the device has its own. |
| PlaybackEffects.GainIsVolume | src/media/mybot_audio.c:91-117 | The fixed-point gain is within one step of volume times sample over 100, exactly the sample at 100 and silence at 0. |
| PlaybackRuns.WriteKeeps | src/media/mybot_media_pipeline.c:198-231 | One device write of any length, or a failed one, keeps the order of frames and the mirror; what becomes of the rest of the frame is PlaybackContinuity.WriteTakes. |
| PlaybackRuns.TickKeeps | src/media/mybot_media_pipeline.c:141-232 | Any tick keeps the invariant, other threads running at each of its steps. |
| PlaybackRuns.RunKeeps | src/media/mybot_media_pipeline.c:141-244 | Every run of ticks and flushes keeps the invariant. |
| Playback.Playback.PlaybackTimer | src/media/mybot_media_pipeline.c:141-232 | The tick as specified; it keeps the invariant. |
| Playback.Playback.DrainPlaybackRing | src/media/mybot_media_pipeline.c:20-34 | The loop reads a scratch full at a time until it finds the ring empty, audio arriving after each read. |
| Playback.Playback.DiscardPendingPlayback | src/media/mybot_media_pipeline.c:101-105 | The pending frame is given up where it stands. |
| Playback.Playback.PreparePendingPlayback | src/media/mybot_media_pipeline.c:108-139 | The next frame comes from the announcement, filled up with silence, or is one whole frame of the ring. |
| Playback.Playback.DropStale | src/media/mybot_media_pipeline.c:154-163 | A clear request or another announcement generation flushes playback. |
| Playback.Playback.GiveWay | src/media/mybot_media_pipeline.c:165-176 | An active announcement drops buffered RTC audio. |
| Playback.Playback.PlayPending | src/media/mybot_media_pipeline.c:184-197 | No write without room for its reference or with an outdated generation. |
| Playback.Playback.WritePending | src/media/mybot_media_pipeline.c:198-231 | What the device took is mirrored; an error or a finished or outdated frame is discarded. |
| Playback.Playback.EnqueueReference | src/media/mybot_media_pipeline.c:216-226 | The written samples of an RTC frame enter the reference ring. |
| Playback.Playback.FlushPlaybackNow | src/media/mybot_media_pipeline.c:234-244 | A flush drops everything and clears the request; it keeps the invariant. |
| Announce.Announce.ReadPcm | src/platform/mybot_announce.c:161-194 | A read returns the next frames of what is pending, as many as fit, past ended and failed sounds, and a read that falls short has closed every handle; if the source reports more than it was asked for, the reader gets nothing and what was read before is lost. |
| Announce.Announce.ReadAll | src/platform/mybot_announce.c:161-194 | Reads of any sizes one after the other return the front of what was pending, as long as the sizes are in all, and leave the rest. |
| Announce.Announce.PlayAndRead | src/platform/mybot_announce.c:71-194 | What readers of a fresh announcement get is the front of prompt and digits, whatever sizes they ask for. |
| Announce.Announce.ReadHead | src/platform/mybot_announce.c:174-191 | One source read: its frames follow those before, and a sound that ended is closed and passed. |
| Announce.Announce.PlayPairCode | src/platform/mybot_announce.c:71-128 | The announcement becomes the prompt and the available sounds of the first sixteen digits, each as far as the source delivers it; without the prompt nothing changes. |
| Announce.Announce.ListSounds | src/platform/mybot_announce.c:86-99 | Non-digits are ignored and digits after the sixteenth dropped. |
| Announce.Announce.OpenNext | src/platform/mybot_announce.c:106-116 | One more sound is opened behind those before, whole or cut by an error; a missing one is passed over. |
| Announce.Announce.OpenSounds | src/platform/mybot_announce.c:101-116 | Sounds are opened beside the old queue; a missing digit is passed over. |
| Announce.Announce.CloseQueuedSounds | src/platform/mybot_announce.c:44-53 | Every queued handle is closed once, and no other. |
| Announce.Announce.Stop | src/platform/mybot_announce.c:130-139 | No handle stays open and the generation moves on. |
| Announce.Announce.Deinit | src/platform/mybot_announce.c:55-69 | No handle stays open. |
| Announce.Announce.IsActive | src/platform/mybot_announce.c:141-149 | Whether a sound is queued. |
| Announce.Announce.GetGeneration | src/platform/mybot_announce.c:151-159 | The generation, 0 when not active. |
| Announce.SizesDoNotMatter | src/platform/mybot_announce.c:161-194 | Reads of these sizes, as ReadAll makes them, depend on their sum alone. |
| Announce.CodeIsSpelt | src/platform/mybot_announce.c:71-99 | A code of digits is announced as the prompt and one sound for each of its first sixteen digits. |
| Announce.OthersAreDropped | src/platform/mybot_announce.c:86-99 | Characters other than digits change nothing, wherever they stand in the code. |
| DeviceCommand.ReadFields | src/core/mybot_device_command.c:9-28 | The one-pass reader succeeds exactly if the names are pairwise distinct, all known and cover the required ones, and returns each field's value. |
| DeviceCommand.FrontCovered | src/core/mybot_device_command.c:27 | The mask covers the required bits exactly if every required field was seen. |
| DeviceCommand.ReadId | src/core/mybot_device_command.c:35-46 | An id is a string of 1 to 127 bytes. |
| DeviceCommand.ReadInteger | src/core/mybot_device_command.c:48-56 | A whole number within its range, however it was written. |
| DeviceCommand.ParseAction | src/core/mybot_device_command.c:77-98 | The action object gives kind and value, or is refused. |
| DeviceCommand.ParseDeviceCommand | src/core/mybot_device_command.c:58-98 | The parser as specified. |
| DeviceCommandMeaning.CommandIsExactly | src/core/mybot_device_command.c:58-98 | A tree is accepted as a command exactly if its members, in any order and by their literal names and texts, say so: type, schema, version 1, three ids of 1 to 127 bytes, and an action that sets a level of 0 to 100 or adjusts by -100 to 100. |
| DeviceCommandMeaning.SpeltIsAccepted | src/core/mybot_device_command.c:58-98 | The object written out with any ids, either action and any value in its range is accepted as exactly that command. |
| DeviceCommandOrder.CommandIgnoresOrder | src/core/mybot_device_command.c:58-98 | Verdict and command do not depend on the order of members of any object, at any depth. |
| DeviceCommandOrder.FieldShuffled | src/core/mybot_device_command.c:9-28 | A reordered object has the same fields, equal up to reordering. |
| CommandSession.RepeatsAreFarApart | src/core/mybot_app.c:244-256 | Between two acceptances of one id lie at least sixteen acceptances of others. |
| CommandSession.CommandHistory.Remember | src/core/mybot_app.c:244-256 | An id is accepted exactly if it is not among the last sixteen accepted ones. |
| CommandSession.CommandHistory.Reset | src/core/mybot_app.c:738-739 | A start or stop of a conversation forgets the history. |
| CommandSession.RunsAcrossBoundaryExactly | src/core/mybot_app.c:258-288 | After any run: a command received then can be run after a later start or stop of a conversation, even a failed start, if and only if it arrived between conversations without a sender name and not over a channel. |
| CommandSession.NeverRunAcrossBoundary | src/core/mybot_app.c:258-288 | A command that arrived in a conversation, from a named sender or over a channel before a start or a stop is left alone whenever it is handled later. |
| CommandSession.UnnamedSenderSlipsThrough | src/core/mybot_app.c:266-276 | A run with the gap: after a whole conversation an unnamed command arrives, the next start is refused early, its stop request is forgotten, and the command runs. |
| CommandSession.RunsExactlyNewOnes | src/core/mybot_app.c:266-286 | In every run equal ids run under one conversation generation, present or past, are more than sixteen commands apart, and the next command runs exactly if it is from the agent of the open conversation, for it and not stopped, and its id is not among the last sixteen run under the present one; otherwise nothing changes. |
| CommandSession.StopSilences | src/core/mybot_app.c:266-276 | After a stop is asked for, nothing changes until it is served or forgotten. |
| CommandSession.SilencedRunsNothing | src/core/mybot_app.c:716-775 | A start that is refused or whose join fails, and a conversation asked to stop, run no command. |
| CommandSession.StoppedRunsNothing | src/core/mybot_app.c:777-783 | Between a stop and the next start no command runs. |
| CommandSession.OpenedRunsFirst | src/core/mybot_app.c:716-775 | A conversation that is opened runs its agent's first command. |
| CommandSession.ControlOwner.HandleDeviceCommand | src/core/mybot_app.c:257-290 | The handler over the runtime fields and the history ring is the step those results are about. |
| CommandSession.ControlOwner.StartConversation | src/core/mybot_app.c:716-775 | A start as specified: refused early it leaves generation and history, otherwise both begin afresh. |
| CommandSession.ControlOwner.StopConversation | src/core/mybot_app.c:777-783 | A stop moves the generation on and forgets history, channel and agent. |
| Mixer.VolumeSurvivesIff | platforms/linux/linux_audio_volume_alsa_mixer.c:94-125 | Get after set returns every volume 0 to 100 exactly if the range spans at least 100 steps. |
| Mixer.RawSurvivesIff | platforms/linux/linux_audio_volume_alsa_mixer.c:94-125 | Set after get returns every raw level exactly if the range spans at most 100 steps. |
| Mixer.ThresholdIsTight | platforms/linux/linux_audio_volume_alsa_mixer.c:94-125 | At a span of 99 volume 50 reads back as 51. |
| Mixer.EndsMeet | platforms/linux/linux_audio_volume_alsa_mixer.c:94-125 | 0 and 100 map to the ends of the range and back. |

## Left out

- JsonParser.ParseNumber: fractions and exponents are kept as exact decimal values, so rounding to double, overflow of the power of ten and the `%g` and `%e` output are not modelled; the round trip is for whole numbers.
- JsonParser.ParseScaled: the range check is on the exact value instead of the rounded double.
- JsonAccepted.PrescanDropsNothing: is about the texts the model accepts; a fraction just outside the 64-bit range that rounding to double would still let in is not among them.
- JsonPrinter.PrintNumber: the digits of an integer are those of the specification, as the C library's `%lld` writes them.
- DeviceCommand.ReadInteger: whether a fraction is a whole number is decided on its exact value instead of the rounded double.
- JSON trees are values: the linked sibling nodes, their freeing and case-insensitive lookup are not modelled; names and texts that C code adds by hand are not either.
- Allocation failure everywhere, argument checks against NULL, and the growth of the JSON buffers towards the limit of int.
- Lifecycle.Lifecycle.SetNetworkAvailable: network changes are reported by on_wifi_event on the platform's thread and by handle_wifi_event on the control owner; that no report starts while another is running is an assumption. All writes of a report are separate steps.
- LifecycleOutcomes.StartIsServed: like the other outcomes given as a whole new state, but for the results dropped or of pairing polls, is for events during which other threads do nothing; what holds whatever they do is said by LifecycleRuns, LifecycleSafety and LifecycleEffects.
- Lifecycle.Lifecycle.ConversationStarted: other threads act in the start callback, after it in one place, and at the HTTP calls; between two plain field writes of the control owner they do not.
- Lifecycle.Lifecycle.PersistDeviceAuth: a store write takes effect as a whole or not at all; the byte layout of the record is its fields and its size.
- Firmware and hardware names, the pair code shown to the user, and the RTC token text are not part of the lifecycle model, as no decision depends on them.
- Wrap-around of the network, binding, announcement and conversation generations, which are natural numbers here.
- RingMachine.ReadsPrefixOfWrites: memory is sequentially consistent; the barriers of weak memory are not modelled, nor int overflow of sizes near the limit of int.
- Playback.Playback.DrainPlaybackRing: is for drains that end, as a producer might keep ahead of one for ever; rings hold whole samples rather than bytes.
- Playback.Playback.PlaybackTimer: reads the announcement's generation, activity and PCM as inputs; that PCM is what Announce.Announce.ReadPcm returns.
- Announce.Announce.ReadPcm: calls are serialised as by its lock; a source that reports more frames than asked for is taken to have delivered none in that call.
- Announce.Announce.PlayPairCode: is one step, so no read falls between its opening of sounds and its taking of the lock.
- HttpFraming.ParseResponse: sockets, TLS, deadlines and the growth of the receive buffer are not modelled.
- CommandSession.RunsAcrossBoundaryExactly: whether the RTM service ever delivers a message without a sender name is the vendor's; the runtime itself only asks for a name that is not NULL.
- The envelope around a device command, the LCD indicators and the volume calls a command leads to.
- Capture, sending, wake words, video, the RTC vendor library, the state model and the presenter, thread and queue creation, and the ALSA, key, LCD and key-value drivers.
