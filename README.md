# qbittorrent-natpmp-sync, one reconciliation cycle

This tool keeps qBittorrent's announced port and address in step with a NAT-PMP
port mapping. Each cycle does the following:

1. It reads qBittorrent's preferences (`GET /api/v2/app/preferences`).
2. It asks the gateway for a TCP and then a UDP mapping of the listen port, by running `natpmpc`.
3. It reads the public port and the public address out of the tool's text output with two regular expressions.
4. For `announce_port` and `announce_ip` in turn: when the wanted value differs from the current one, it reads all preferences, sets that one key and posts the whole object back (`setPreferences`). Once the update returned without error, it reads the preferences once more to check the value.

The model has six modules:

- `Wrappers`: `Option` and `Result`.
- `Digits`: ASCII digit runs and their decimal values.
- `Regex`: the fragment of Go's regular expressions that the two patterns use, with matching as a predicate and the leftmost-longest search result. For these two patterns, Go's leftmost-first search reports this same span.
- `NatpmpOutput`: `parsePublicPort` and `parsePublicIP`. Each is written as a plain scan, and each is proved equal to the leftmost-longest search of its pattern. Separate lemmas show how the scans read the text `natpmpc` prints.
- `Preferences`: the three-field extraction of `getCurrentPreferences`, and the single-key read-modify-write of `updateAnnouncePort` and `updateAnnounceIP`.
- `Reconciler`: `doMainLoopWork`, as imperative methods over an `Effects` record. That record supplies the outcome of every request and every run of `natpmpc`. The cycle returns the ordered list of actions it asked for and how it ended.

## Model

| member | source | states |
|---|---|---|
| NatpmpOutput.Atoi | main.go:171-174 | A run of digits converts to its decimal value when it fits a 64-bit `int`, and otherwise to the range error "invalid port number" |
| NatpmpOutput.ParsePublicPort | main.go:164-176 | The port parser returns a value within `int` range, or one of its two errors: no match, or out of range |
| NatpmpOutput.ParsePublicPortIsLeftmostLongest | main.go:165-175 | When `Mapped public port (\d+)` has its leftmost-longest match at [i, e), the parser converts exactly the digits of that match |
| NatpmpOutput.ParsePublicPortNoMatch | main.go:166-170 | The parser reports "failed to parse public port" exactly when the pattern matches nowhere in the output; otherwise a leftmost-longest match exists |
| NatpmpOutput.ParsePublicPortReadsDigits | main.go:165-175 | On output `pre + "Mapped public port " + ds + post` (label absent from pre, post not starting with a digit), the result is `Atoi(ds)`: leading zeros are accepted and 65535 is not a bound |
| NatpmpOutput.ParsePublicPortReadsPrintedPort | main.go:164-176 | A port n, printed in decimal after the label, is read back as n. The only exception is the range error, when n exceeds the `int` range |
| NatpmpOutput.ShortPortRunsFit | main.go:171-174 | A matched run of at most 18 digits never hits the range error |
| NatpmpOutput.PortExampleReply | main.go:164-176 | "Mapped public port 54321 protocol TCP" gives 54321 |
| NatpmpOutput.PortExampleAboveRange | main.go:171-175 | "Mapped public port 70000" gives 70000: nothing checks the port range |
| NatpmpOutput.PortExampleLeadingZeros | main.go:171-175 | "Mapped public port 007" gives 7 |
| NatpmpOutput.ParsePublicIP | main.go:154-162 | The address parser returns the matched address or the "failed to parse public IP address" error |
| NatpmpOutput.ParsePublicIPIsLeftmostLongest | main.go:155-161 | When `Public IP address : (\d{1,3}\.\d{1,3}\.\d{1,3}\.\d{1,3})` has its leftmost-longest match at [i, e), the parser returns the text of that match after the label |
| NatpmpOutput.ParsePublicIPNoMatch | main.go:156-160 | The parser fails exactly when the pattern matches nowhere; otherwise a leftmost-longest match exists |
| NatpmpOutput.ParsedIPIsDottedQuad | main.go:155-161 | Every returned address splits on "." into exactly four groups of one to three digits |
| NatpmpOutput.ParsePublicIPReadsQuad | main.go:155-161 | Output with the label followed by groups g1.g2.g3.g4 (one to three digits each) gives exactly that quad. A three-digit last group is taken even when more digits follow it |
| NatpmpOutput.IPExampleReply | main.go:155-161 | "Public IP address : 203.0.113.7" gives "203.0.113.7" |
| NatpmpOutput.IPExampleLongLastGroup | main.go:155-161 | "Public IP address : 1.2.3.4567" gives "1.2.3.456": a longer last run is cut to three digits |
| NatpmpOutput.IPExampleNoRangeCheck | main.go:155-161 | "Public IP address : 999.999.999.999" is accepted: group values are not range-checked |
| Digits.DecimalValueOfDecimal | main.go:77 | Formatting a number with `%d` and reading the digits back gives the number |
| Digits.DecimalValueBound | main.go:171 | A run of k digits has a value below 10^k |
| Digits.LeadingZeroIgnored | main.go:171 | A leading zero does not change the decimal value `strconv.Atoi` computes |
| Preferences.CurrentPreferences | main.go:191-220 | A failed request or decode gives the request error. Otherwise `announce_ip` must be a string, then `announce_port` and `listen_port` numbers, and the first failure decides the error (each case is an if-and-only-if). On success the three values are those of the document |
| Preferences.CurrentPreferencesReadsThreeFields | main.go:203-216 | Two documents that agree on the three keys give the same extraction result, whatever else they hold |
| Preferences.SingleKeyUpdateIsAssignment | main.go:259 | "The key holds the new value, no other key is added and every other key keeps its value" holds exactly for the map assignment `prefs[key] = value` |
| Preferences.UpdatePreference | main.go:251-295 | A failed read posts nothing. Otherwise the posted document is the read document with only the key changed. Success means a document was posted and the POST returned without error |
| Preferences.UpdateAnnouncePort | main.go:251-295 | As UpdatePreference, for `announce_port` set to the port |
| Preferences.UpdateAnnounceIP | main.go:298-342 | As UpdatePreference, for `announce_ip` set to the address |
| Preferences.ExtractAfterPortUpdate | main.go:259 | Reading back a document after its `announce_port` was set gives the new port with the other two fields unchanged. It fails only if those other fields were already malformed |
| Preferences.ExtractAfterIPUpdate | main.go:306 | Reading back a document after its `announce_ip` was set gives the new address with the two ports unchanged |
| Reconciler.Observe | main.go:70-105 | Stops at the first failing step (read, TCP run, UDP run, TCP port, TCP address, UDP port), in that order. It issues exactly the read and the `natpmpc -g gw -a 1 <listen> TCP/UDP 60` runs reached. On success it returns the four parsed values |
| Reconciler.SettingActsShape | main.go:115-151 | A setting's block touches only that setting and starts with its update. It updates the setting exactly when the value differs, checks exactly an update that posted, and posts the read document with only the setting's key changed |
| Reconciler.ReconcileSetting | main.go:115-151 | One setting: its actions are exactly `SettingActs`, that is, nothing, the update, or the update and then its check; updated exactly when the wanted value differs from the current one, with a payload that assigns only its key. It is re-read exactly when the update posted. The check outcome is Unchanged, UpdateFailed, RecheckFailed, Confirmed or Unconfirmed, each under its exact condition |
| Reconciler.Reconcile | main.go:107-151 | The UDP port wins over the TCP one, a disagreement being flagged. The actions are the port block's followed by the address block's. The address is always the TCP one. Both settings are handled, the address whatever became of the port |
| Reconciler.DoMainLoopWork | main.go:69-152 | The whole cycle: aborted at the first failing step with no update issued, or finished with exactly the action list: the read, the TCP and UDP runs, the port block, then the address block, each in terms of the parsers and extraction applied to the effects |
| Reconciler.FinishedCycle | main.go:107-151 | The action list, counts, payloads and reports of the reconciling half carry over to the whole action list after the reads and the `natpmpc` runs |
| Reconciler.CountsAppend | main.go:115-151 | Counting the updates and checks of a setting is additive over concatenated action lists |
| Reconciler.NoUpdatesBeforeReconciling | main.go:70-105 | The actions before reconciling are reads and `natpmpc` runs only |

## Left out

- The endless loop, signal handling and sleep between cycles (main.go:45-67) are not modelled; one cycle is.
- Running `natpmpc` is not modelled. Its combined output and whether it exited with an error are inputs. Output bytes are taken as characters.
- HTTP is not modelled: requests, the base URL, and basic authentication (which is attached only when both username and password are non-empty). A request and its decoding together are one input `Fetch`. A POST is one input boolean. The HTTP status of a response is never looked at by the source, so the model has none.
- JSON and URL-form encoding of the posted preferences is not modelled. The posted value is the document itself, and a `json.Marshal` error is folded into the POST outcome.
- A JSON `null` body is not modelled. It decodes to a nil map, on which extraction fails and the update's assignment would panic. The model's documents are always maps.
- JSON numbers are modelled as naturals, so the `float64` values and the `uint(float64)` and `float64(port)` conversions are not modelled. A non-integral or negative number in the preferences is outside the model.
- Command-line flag parsing and `log.Fatal` on missing flags are not modelled. The gateway is a parameter.
- Log messages are not modelled. The model reports the same outcomes through `End` and `Check`, and the port disagreement through a flag.
- NatpmpOutput.Atoi: assumes Go's `int` is 64 bits wide, as on the platforms the tool targets.
- NatpmpOutput.ParsePublicPort: the `uint(port)` conversion is the identity, because a run of digits is never negative.
