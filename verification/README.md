# LAN scoreboard: discovery, scoring and NeoPixel encoding in Dafny

This project models three parts of a small LAN scoreboard system.

- **Discovery** (`discovery.dfy`, module `Discovery`). A `Mirror` server listens on
  a UDP multicast group. It binds the first port of its list that accepts a bind.
  It answers every datagram equal to its key with its `info` payload. A `Beacon`
  client sends its key to every port of the group. It records every reply in a
  `responses` map keyed by the sender. Both classes share one lifecycle:
  - `start` and `stop` are guarded transitions that return 0 or 1;
  - the worker loop keeps an error budget (`exc[0]` retries before a back-off);
  - `_cleanstop` clears `running`, joins the worker, closes the socket, calls the
    callback and clears `stopping`.
- **Scoring** (`scoreboard.dfy`, module `Scoreboard`). The fullscreen scoreboard
  credits one point to the first team whose UID matches a received datagram.
  Matching uses the first byte, the first four bytes or the whole UID, each gated
  by its configuration flag. After an update the team list is re-sorted by
  (score, previous score), highest first and stable. Then every previous score is
  set to the score. Rank chooses the text colour and row parity the background.
- **String to NeoPixel** (`neopixel.dfy`, module `StringToNeopixel`). `f1` splits
  every byte of the encoded input into its high and low nibble and drops trailing
  zero nibbles. Each remaining nibble picks one of sixteen palette colours for one
  pixel.

`options.dfy` holds the shared `Option` type.

Sockets are abstract in the discovery model:
- whether creating a socket succeeds is a boolean (`sockOk`);
- whether binding a port succeeds (`bindOk`) and whether sending a probe to a
  port succeeds (`sendOk`) are oracle functions;
- the results of the Beacon worker's receive calls are a list of `RecvEvent`s;
- each iteration of the Mirror worker is a `MirrorStep`. It holds the receive
  result and what the reply `sendto` does if the datagram equals the key: it
  succeeds, times out, or raises another error. A reply to the same peer can
  therefore fail at one iteration and succeed at a later one.

Every successful send is appended to a `wire` log. Every callback call is
appended to a `callbacks` log, together with the value `stopping` had at that
moment. `stop` stores its callback (and, for the Beacon, its `clear` flag) in
fields that `CleanStop` reads, as the source passes them to the `_cleanstop`
task. The worker runs as a method over the receive results seen while
`running` was true. Leaving the loop once `running` is cleared, and clearing
`reflecting`/`waiting`, belong to `CleanStop`, which joins the worker.

The error budget is specified once, by `BudgetStep`/`BudgetAfter`, and proved
about in lemmas:
- the counter stays in `1..exc[0]`;
- only errors back off;
- `n` errors in a row from a fresh budget back off `n - exc[0] + 1` times once
  `n >= exc[0]`.

Both receive loops are proved against that specification.

The scoring loop works on a list of `Team` values. `list.sort(key=..., reverse=True)`
is specified by a stable insertion sort, `SortByKeyDesc`. That sort is proved to
be a permutation, ordered, and stable per key.

## Model

| member | source | states |
|---|---|---|
| `Discovery.BudgetInRange` | discovery.py:84-98 | With `exc[0] >= 1`, the error counter lies in `1..exc[0]` after any run of iterations. |
| `Discovery.BackoffsOnlyOnErrors` | discovery.py:91-98 | The number of back-offs is at most the number of failed iterations: timeouts and successful receives never sleep. |
| `Discovery.ConsecutiveErrors` | discovery.py:95-98 | Starting from counter `em >= 1`, `n` errors in a row leave `(em - n, 0 back-offs)` when `n < em`, and otherwise counter 1 with `n - em + 1` back-offs. |
| `Discovery.FreshBudgetUnderErrors` | discovery.py:84-98 | From a fresh budget `exc[0] >= 1`, `n` consecutive errors back off `n - exc[0] + 1` times once `n >= exc[0]`, and not at all before. |
| `Discovery.MirrorReply` | discovery.py:87-89 | The Mirror sends something in an iteration iff it received a datagram equal to the key and that iteration's reply `sendto` succeeds; what it sends is exactly `info`, to the sender. |
| `Discovery.MirrorIteration` | discovery.py:86-98 | One pass of the Mirror's `try` block: the reply and the budget agree with `MirrorReply` and one `BudgetThen` step. A reply that times out leaves the budget as `continue` does; a reply that raises anything else counts as an error. |
| `Discovery.MirrorRepliesAuthenticated` | discovery.py:87-89 | Over any run, every reply carries `info` and goes to a peer whose key-equal datagram was answered in some iteration; there are at most as many replies as iterations. |
| `Discovery.MirrorIgnoresOthers` | discovery.py:88 | A run in which no datagram equals the key produces no replies. |
| `Discovery.FirstBindable` | discovery.py:45-50 | The chosen port index is the first, in list order, whose bind succeeds; `None` iff no port binds. |
| `Discovery.PingAccounting` | discovery.py:167-177 | `ping` tries every port once: failed sends plus sent probes equal `len(port)`, the count is in `0..len(port)`, and it is 0 iff every send succeeds. |
| `Discovery.RecordKeepsLatest` | discovery.py:211-212 | After a run, a peer that replied maps to its latest reply; a peer that did not keeps its earlier entry or stays absent. |
| `Discovery.RecordOnlyGrows` | discovery.py:209-213 | The worker never removes an entry from `responses`. |
| `Discovery.BeaconIteration` | discovery.py:210-221 | One pass of the Beacon's `try` block: a datagram is stored under its sender and resets the budget; the budget step agrees with `BudgetStep`. |
| `Discovery.Mirror.constructor` | discovery.py:14-37 | A new Mirror is idle: no socket, status 0, no thread, not running, stopping or reflecting. |
| `Discovery.Mirror.Start` | discovery.py:102-108 | Returns 1 and changes nothing while running or stopping; otherwise returns 0 with `running` set and a worker thread. |
| `Discovery.Mirror.Stop` | discovery.py:119-125 | Returns 1 and changes nothing while stopping or when not running; otherwise returns 0 with `stopping` set, `running` still true, and its callback handed on to `_cleanstop`. |
| `Discovery.Mirror.CleanStop` | discovery.py:110-117 | Afterwards it is neither running nor stopping, with no thread and no socket; the callback given to `stop`, if any, is called once with code 0 while `stopping` is still true. |
| `Discovery.Mirror.Disconnect` | discovery.py:67-72 | Returns 0 and forgets the socket; nothing else changes. |
| `Discovery.Mirror.BindSock` | discovery.py:45-50 | Binds the first bindable port of the list and returns it; `None` (the `RuntimeError`) iff no port binds, the socket then left as it was. |
| `Discovery.Mirror.Reconnect` | discovery.py:52-65 | Returns 0 iff the socket opens and some port binds; then the socket is bound to the first bindable port, otherwise it is `None` and the result is 1. |
| `Discovery.Mirror.Threadfunc` | discovery.py:74-100 | A failed connect sets status 1, clears `reflecting` and sends nothing. Otherwise the wire gains exactly the replies `MirrorReply` prescribes, and the budget ends as `BudgetAfter` says. |
| `Discovery.Mirror.Serve` | discovery.py:84-98 | The receive loop appends exactly `MirrorReplies` of its events to the wire and leaves the counter and back-off count that `BudgetAfter` prescribes. |
| `Discovery.Beacon.constructor` | discovery.py:132-154 | A new Beacon is idle with an empty `responses` map. |
| `Discovery.Beacon.Start` | discovery.py:225-233 | Returns 1 and changes nothing while running or stopping; otherwise returns 0 with `running` set, emptying `responses` iff `clear`. |
| `Discovery.Beacon.Stop` | discovery.py:247-253 | Returns 1 and changes nothing while stopping or when not running; otherwise returns 0 with `stopping` set and its `clear` flag and callback handed on to `_cleanstop`. |
| `Discovery.Beacon.CleanStop` | discovery.py:235-245 | Afterwards it is neither running nor stopping, with no thread and no socket; `responses` is emptied iff `stop` was given `clear`; the callback given to `stop` is called once with 0 while stopping. |
| `Discovery.Beacon.Disconnect` | discovery.py:191-196 | Returns 0 and forgets the socket; nothing else changes. |
| `Discovery.Beacon.Ping` | discovery.py:167-177 | Empties `responses` iff `clear`, sends the key to every port that accepts it, and returns the number of failed sends, in `0..len(port)`. |
| `Discovery.Beacon.PingAll` | discovery.py:162-165 | Succeeds iff every send succeeds. On failure the probes before the first failing port, and no others, have gone out. |
| `Discovery.Beacon.Reconnect` | discovery.py:179-189 | Returns 0 iff the socket opens and every probe goes out. On failure the socket is `None`: nothing was sent if the socket did not open, otherwise exactly the probes before the first failing port. |
| `Discovery.Beacon.Threadfunc` | discovery.py:198-223 | A failed connect sets status 1 and clears `waiting`; the wire then holds nothing new, or exactly the probes before the first failing port. Otherwise the probes go out, every reply is recorded under its sender, and the budget ends as `BudgetAfter` says. |
| `Discovery.Beacon.Serve` | discovery.py:208-221 | The receive loop leaves `responses` as `Record` of its events and the budget as `BudgetAfter` prescribes. |
| `Scoreboard.DefaultConfigMatchesFirstByte` | conf_server_gui.py:10-14 | With the shipped flags, a datagram matches a UID iff their first bytes agree. |
| `Scoreboard.FirstMatch` | server_gui.py:128-135 | The result is the first team, in list order, whose UID matches; `None` iff no team matches. |
| `Scoreboard.Credit` | server_gui.py:128-135 | A datagram credits one point to the first matching team only, and changes nothing iff no team matches; names and UIDs stay in place. |
| `Scoreboard.CreditChangesAtMostOne` | server_gui.py:133-135 | Of any two teams, at least one is untouched by a datagram: at most one team is credited. |
| `Scoreboard.CreditAll` | server_gui.py:122-135 | The datagrams of a frame keep names and UIDs in place; if none matched, the list is unchanged. |
| `Scoreboard.KeyOrderIsTotalPreorder` | server_gui.py:73-74 | Ordering by `(score, prev_score)` is reflexive, total and transitive; two teams tie iff their keys are equal. |
| `Scoreboard.SortByKeyDescCorrect` | server_gui.py:138 | The re-sort is a permutation, non-increasing by `(score, prev_score)`, and stable: teams with equal keys keep their relative order. |
| `Scoreboard.SortKeepsUids` | server_gui.py:138 | Sorting moves teams without changing them, so non-empty UIDs stay non-empty. |
| `Scoreboard.UpdatedListOrdered` | server_gui.py:137-140 | After an update the list is sorted by key, every previous score equals its score, and the teams are the pre-update ones with only `prev_score` changed. |
| `Scoreboard.Foreground` | server_gui.py:154 | Rank 0 is gold, 1 silver, 2 bronze, and every later rank the text colour. |
| `Scoreboard.AndOneIsParity` | server_gui.py:145 | For a row index, `i & 1` is the remainder of `i` by 2. |
| `Scoreboard.BackgroundAlternates` | server_gui.py:145 | The background is what `i & 1` selects: `COLOR_BG1` exactly for odd rows and `COLOR_BG2` exactly for even ones, so neighbouring rows always differ. |
| `Scoreboard.App.constructor` | server_gui.py:85 | One team per configured (name, uid), in list order, with both scores 0. |
| `Scoreboard.App.ReceiveDatagram` | server_gui.py:128-135 | The loop credits the first matching team and stops; it reports an update iff some team matched. |
| `Scoreboard.App.ResetTeamScores` | server_gui.py:156-158 | Every score becomes 0; names, UIDs, previous scores and order are untouched. |
| `Scoreboard.App.Resort` | server_gui.py:137-140 | The list becomes the stable descending sort of the old list with previous scores synced; it is sorted and every `prev_score == score`. |
| `Scoreboard.App.RunFrame` | server_gui.py:111-141 | A reset request, then the frame's datagrams in order, then a re-sort iff something changed; otherwise the list is exactly as before. |
| `StringToNeopixel.NibbleArithmetic` | string2neopixel.py:6-7 | `x >> 4` and `x & 15` are the quotient and remainder of the byte by 16. |
| `StringToNeopixel.NibbleSplit` | string2neopixel.py:6-7 | Both nibbles are in 0..15 and recombine to the byte. |
| `StringToNeopixel.F1` | string2neopixel.py:2-10 | `f1` returns the nibble list of its bytes (high nibble first) with the trailing zeros removed. |
| `StringToNeopixel.NibblesLayout` | string2neopixel.py:5-7 | Before trimming there are two entries per byte: entry `2k` is the high and `2k+1` the low nibble of byte `k`. |
| `StringToNeopixel.NibblesInRange` | string2neopixel.py:5-7 | Every nibble is in 0..15. |
| `StringToNeopixel.TrimZerosIsZeroFreeSuffix` | string2neopixel.py:8-9 | Trimming keeps a prefix and removes only zeros; the result is empty or ends in a non-zero element. |
| `StringToNeopixel.F1Output` | string2neopixel.py:2-10 | The output is a prefix of the nibble list with values in 0..15 and no trailing zero; only zeros were dropped. |
| `StringToNeopixel.PadTrimmed` | string2neopixel.py:8-9 | Padding the trimmed list with zeros to its original length restores it: trimming loses nothing but zeros. |
| `StringToNeopixel.CombineInvertsNibbles` | string2neopixel.py:5-7 | Recombining each (high, low) pair of the loop's list gives back the bytes, by induction on the bytes. |
| `StringToNeopixel.CombineNibbles` | string2neopixel.py:5-7 | Recombining the (high, low) pairs of the untrimmed list gives back the bytes. |
| `StringToNeopixel.RoundTrip` | string2neopixel.py:2-10 | Round trip: pad `f1`'s output with zeros to twice the byte count, recombine the pairs, and the original bytes come back. |
| `StringToNeopixel.TrimsAwayIffAllZero` | string2neopixel.py:8-9 | The trim loop empties a list iff all its elements are zero. |
| `StringToNeopixel.ZeroNibblesIffZeroBytes` | string2neopixel.py:5-7 | The nibble list is all zeros iff every byte is zero. |
| `StringToNeopixel.EmptyIffAllZero` | string2neopixel.py:2-10 | `f1` returns an empty list iff every input byte is zero, in particular for empty input. |
| `StringToNeopixel.PixelColors` | string2neopixel.py:12-32 | There is one pixel per element of `f1`'s output; pixel `i` gets palette colour `cl[f1(...)[i]]`, always within the 16-entry palette. |

## Left out

- Real sockets, threads and timing are not modelled:
  - `socket`, `setsockopt`, `settimeout` and `recvfrom` become the parameters described above;
  - `threading.Thread`, `join` and daemon threads are not modelled;
  - the receive timeout and the back-off duration `exc[1]` are floats used only for waiting, so a back-off is counted, not slept.
- The interleaving of the worker with `_cleanstop` is not modelled. The worker is a method run to the end of its events; after the join, `CleanStop` clears `reflecting`/`waiting`, as the worker does when it leaves its loop.
- `__init__`'s `autostart` is left out: it only calls `start`.
- `__del__` is left out: it only calls `stop`.
- `__repr__` and `logging` are left out: they have no effect on state.
- `Discovery.Mirror.Reconnect` assumes a well-formed group address. `socket.inet_aton(self.mgroup)` sits outside the `try`, so a malformed address would raise out of `threadfunc`.
- The Mirror receives at most `len(key)` bytes per call. The model's `Datagram.msg` is the bytes `recvfrom` returned, after any truncation by the platform.
- Callbacks are identified by a number. Their effects are not modelled; only the call, its code 0 and the `stopping` flag at call time are recorded.
- `Discovery.Beacon.Reconnect` models `reconnect(ping=True)`, the only form the worker uses. `reconnect(ping=False)` is not modelled.
- `Scoreboard.App.ReceiveDatagram` requires what first-byte mode needs: a non-empty datagram and non-empty UIDs. With an empty one, `c[0]` or `t.uid[0]` raises `IndexError` out of the frame loop, and that crash is not modelled.
- The rest of the scoreboard application is left out: pygame rendering, fonts, event polling, `exec_init`, `exec_end`, `shutdown_from` and `main`. Only the colour choices of lines 145 and 154 are modelled.
- Teams are values, not shared objects. Python's `Team` instances are not aliased anywhere else, so no aliasing behaviour is lost.
- The UTF-8 encoding of the input string (`s.encode("u8")`) and reading `input()` are left out. `F1` takes the encoded bytes.
- Printing the `strip.setPixelColor` lines is left out. `PixelColors` returns the `(index, colour)` pairs they would show.
