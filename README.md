# Baseball broadcast board — a Dafny model

This project models the core of the baseball broadcast board. The board is a scoreboard for live streams. An operation panel edits the game (count, outs, innings, scores). A display board shows it. A Node server joins the two over WebSocket and serves the pages over HTTP. A command-line tool writes the tournament configuration.

What the model covers:

- **WebSocket server** (`server.js`). The session state is the class `Session.Session`. It holds the registered clients, the master id, the master token and the grace record of a departed master. The class has one method per handler: connection, handshake timeout, handshake, `release_master`, game-state update, close, grace-timer expiry. It also has one method for `promoteNextMaster`. The decisions these handlers take are functions in `Arbitration`:
  - the role a handshake gets;
  - which slave is promoted;
  - how a message is routed;
  - who receives a broadcast.
- **Game-state validation** (`validateGameState` and `sanitizeHTML`). `GameStateValidation` has a specification function and the loop that computes it. `Sanitize` models the tag- and entity-stripping sanitiser, with what it guarantees and what it does not.
- **Static-file handler** (`HttpAccess`). It covers the URL-to-file mapping, the access check, the content type and the status codes. `Serve` is the handler as written, with its `startsWith` access check; `ServeIntended` is the same handler with the check confined to the public directory, and the lemmas compare the two (see "Findings").
- **Two validators** that exist only inside their unit tests. `HexColor` is the hex colour validator: the hex-colour test holds a copy of the validator of `main.js`, and the board-colour test an identical copy of the one of `public/js/board.js` (neither production file in this repository defines it). `FilePath` is the configuration-path validator.
- **Operation panel** (`public/js/main.js`, and its older copy `js/main.js`, which is the same code without `resetBS`). It is the class `ControlPanel.Panel`, specified button by button by functions on a `Board` value.
- **Display board.**
  - The inning caption is in `InningDisplay`, shared with the panel.
  - The reconnection logic with its backoff is in `Reconnect`, as the class `Reconnect.BoardConnection`.
- **Configuration generator** (`generate-init-data.js`) is modelled in `InitData`:
  - the team and inning validation;
  - the game array and its loop;
  - the `--title/--innings/--teams/--help` argument loop;
  - the command-line outcome;
  - the choice between interactive, YAML and command-line modes.

Shared helpers:

- `JsValue` is a parsed JSON value, with JavaScript truthiness, property access, `||` and `Math.round`.
- `JsStrings` has JavaScript `trim`, ASCII `toLowerCase`, `includes`, `split`/`join`, and decimal digits as `parseInt` reads them.
- `Wrappers` has `Option` and `Result`.

Design decisions:

- Messages arrive already parsed. A message that is not JSON, or is `null`, is dropped; that is the handler's `catch`.
- Clocks, generated ids and tokens, and file contents are parameters.
- Messages sent are appended to an outbox. A message sent to a closed connection is not appended.
- Map iteration order is the registration order, kept as a sequence.

## Model

| member | source | states |
|---|---|---|
| JsValue.Or | server.js:392 | `a \|\| b` is `a` when `a` is truthy and `b` otherwise |
| JsValue.RoundHalfUp | server.js:329 | `Math.round` gives the integer within half of `x`, halves going up |
| JsValue.RoundStaysInBounds | server.js:314-329 | rounding a number between two integer bounds stays between them |
| JsStrings.TrimStart | server.js:251 | the result is a suffix; everything dropped is whitespace; the result does not start with whitespace |
| JsStrings.TrimEnd | server.js:251 | the result is a prefix; everything dropped is whitespace; the result does not end with whitespace |
| JsStrings.TrimIsSlice | server.js:251 | `trim()` is the slice between the leading and the trailing whitespace |
| JsStrings.TrimHasNoOuterSpace | server.js:251 | a trimmed string has whitespace at neither end |
| JsStrings.TrimIdempotent | server.js:251 | trimming twice is trimming once |
| JsStrings.ToLowerAscii | test/unit/validate-hex-color.test.js:33 | lower-casing keeps the length and maps every character on its own |
| JsStrings.IncludesIff | test/unit/validate-file-path.test.js:25-30 | `includes` holds exactly when the pattern occurs at some position |
| JsStrings.Split | generate-init-data.js:177 | splitting gives at least one part, and no part contains the separator |
| JsStrings.JoinSplit | generate-init-data.js:177 | joining the parts of a split with the separator gives back the string |
| JsStrings.DigitsOfDecimal | public/js/main.js:146 | the decimal text of a number reads back as that number |
| Sanitize.SanitizeValue | server.js:232-235 | strings are replaced by their sanitised form, other values are kept |
| Sanitize.SanitizeLeavesNoTagSpan | server.js:232-254 | no `<` in the output is followed, anywhere later, by a `>` |
| Sanitize.SanitizeHtml | server.js:232-252 | the output is never longer than the input and has whitespace at neither end |
| Sanitize.SanitizePlainText | server.js:232-254 | text without `<` and `&` is only trimmed |
| Sanitize.StripTagsAddsNothing | server.js:239 | tag removal creates no character that was absent |
| Sanitize.StripEntitiesAddsNothing | server.js:249 | entity removal creates no character that was absent |
| SanitizeExamples.SanitizeCreatesEntity | server.js:239-249 | deleting an inner entity can join `&l` and `t;` into `&lt;` |
| SanitizeExamples.SanitizeDecodesEntity | server.js:241 | `&lt;` on its own is decoded to `<` |
| SanitizeExamples.SanitizeNotIdempotent | server.js:232-254 | there are inputs whose sanitised form is changed by sanitising it again |
| GameStateValidation.CheckField | server.js:293-336 | a refusal names the field it concerns |
| GameStateValidation.CheckFieldMeaning | server.js:293-336 | a field passes exactly when it is a string within its length (stored sanitised), a number within its bounds (stored rounded) or a boolean (stored as it is), as its rule demands; a value of the wrong type, a missing one included, is refused with that rule's type error |
| GameStateValidation.ValidateFields | server.js:289-337 | an accepted map has exactly the schema's names as keys; a refusal is never "not an object" |
| GameStateValidation.Validate | server.js:263-266 | "not an object" is returned exactly for non-objects |
| GameStateValidation.ValidateGameState | server.js:261-351 | the loop over the fields computes `Validate` |
| GameStateValidation.CheckValue | server.js:293-336 | the per-value branches compute `CheckField` |
| GameStateValidation.ErrorSticks | server.js:289-337 | once a field is refused, the later fields do not change the answer |
| GameStateValidation.ValidateFieldsOkIff | server.js:289-337 | the fields are accepted exactly when every field passes on its own |
| GameStateValidation.ValidateFieldsFirstFailure | server.js:289-337 | the error reported is that of the first failing field, all earlier fields passing |
| GameStateValidation.ValidateFieldsStores | server.js:289-337 | every field's checked value is what the accepted map holds under its name |
| GameStateValidation.SchemaNamesDistinct | server.js:269-284 | the schema names each field once |
| GameStateValidation.ValidateAcceptsIff | server.js:261-351 | a state is accepted exactly when it is an object whose every field passes; a refused object fails at its first failing field |
| GameStateValidation.AcceptedStateConforms | server.js:261-351 | an accepted state has exactly the schema's keys, each value conforming to its rule |
| GameStateValidation.CheckedValueConforms | server.js:293-336 | a value that passed conforms to its field's rule |
| GameStateValidation.SanitizedConforms | server.js:298-307 | a sanitised string within the length limit conforms to a string rule |
| GameStateValidation.UnexpectedFieldsIgnored | server.js:339-346 | keys outside the schema change nothing in the answer |
| GameStateValidation.CleanValueKept | server.js:293-336 | an already clean value passes unchanged |
| GameStateValidation.CleanStateValidatesToItself | server.js:261-351 | a state whose fields are all clean is accepted and stored as it is |
| HexColor.AcceptsIff | test/unit/validate-hex-color.test.js:12-47 | accepted exactly when the trimmed, lower-cased string is `#` and 3 or 6 hex digits; "not a non-empty string" exactly for non-strings and blank strings |
| HexColor.ForeignCharacterRefused | test/unit/validate-board-color.test.js:12-47 | a non-hex character after the `#` makes the colour refused, which keeps CSS text out |
| HexColor.ValidateHexColor | test/unit/validate-hex-color.test.js:12-47 | an accepted colour was given as a string and comes back as `#` and six lower-case hex digits |
| HexColor.ShortFormDoubled | test/unit/validate-hex-color.test.js:36-41 | a short form comes back with each digit doubled |
| HexColor.LongFormLowered | test/unit/validate-hex-color.test.js:33-43 | a long form comes back lower-cased |
| HexColor.CanonicalIsFixed | test/unit/validate-hex-color.test.js:12-47 | a canonical colour is accepted unchanged |
| HexColor.NormalizeIdempotent | test/unit/validate-hex-color.test.js:12-47 | validating a validated colour gives the same answer |
| HexColor.ShortExample | test/unit/validate-hex-color.test.js:12-47 | `#f5f` becomes `#ff55ff` |
| HexColor.UpperCaseExample | test/unit/validate-hex-color.test.js:12-47 | `#FF55FF` becomes `#ff55ff` |
| HexColor.MissingHashExample | test/unit/validate-hex-color.test.js:20-31 | `ff55ff` is refused as not hex format |
| FilePath.StripTrailingSlashes | test/unit/validate-file-path.test.js:48 | the trailing slashes, and only they, are removed |
| FilePath.LastDot | test/unit/validate-file-path.test.js:48 | the position found holds the last `.`; there is none exactly when no `.` occurs |
| FilePath.AcceptsIff | test/unit/validate-file-path.test.js:21-62 | a path is accepted exactly when no suspicious pattern occurs, it resolves to a regular file and (when a list is given) its lower-cased extension is listed; the resolved path is returned |
| FilePath.ValidateFilePath | test/unit/validate-file-path.test.js:21-62 | an accepted path is the resolved one, and it names a regular file |
| FilePath.SuspiciousRefusedFirst | test/unit/validate-file-path.test.js:25-30 | a suspicious pattern is refused whatever the file system holds |
| FilePath.RefusalOrder | test/unit/validate-file-path.test.js:36-56 | missing, then not a file, then the extension are checked in that order |
| FilePath.EmptyListAllowsAnyExtension | test/unit/validate-file-path.test.js:48 | an empty list lets every regular file through |
| FilePath.Extname | test/unit/validate-file-path.test.js:48 | an extension is empty, or starts with the only `.` it holds and is a final segment of the last path segment |
| FilePath.YamlExtension | test/unit/validate-file-path.test.js:48-56 | a path `dir/name.yaml` has extension `.yaml` |
| FilePath.YamlName | test/unit/validate-file-path.test.js:48-56 | in `name.yaml` with a dot-free, slash-free name, the last dot is the one before `yaml`, so the extension is `.yaml` |
| HttpAccess.RequestedUrl | server.js:163-166 | every URL other than `/` is used as it is |
| HttpAccess.IsPublicIff | server.js:183 | the intended public test holds exactly for the directory and paths below it |
| HttpAccess.IntendedIsStricter | server.js:183 | the intended test implies the written one; they differ exactly on siblings sharing the prefix |
| HttpAccess.SiblingDirectoryAdmitted | server.js:183 | the written `startsWith` test admits a sibling directory's file |
| HttpAccess.ContentType | server.js:193-204 | any type other than the default comes from a `.`-extension |
| HttpAccess.ForbiddenIff | server.js:180-192 | the handler as written answers 403 `Forbidden` exactly when the resolved path neither starts with the public directory's path nor is one of the two configuration files, whatever the file system holds |
| HttpAccess.ServedFileIsAllowed | server.js:183-222 | a 200 from the handler as written serves, with its content, a file whose path starts with the public directory's path or is a configuration file |
| HttpAccess.Serve | server.js:160-222 | the handler as written answers 200, 403, 404 (with `404 Not Found`) or 500 |
| HttpAccess.IntendedServesOnlyPublic | server.js:182-192 | with the check confined to the public directory, a 200 serves the directory itself, a path below it, or a configuration file, with its content |
| HttpAccess.HandlersDifferOnSiblings | server.js:183 | the two handlers answer differently only where the intended one forbids a sibling path sharing the prefix that the written one lets through |
| HttpAccess.SiblingFileServed | server.js:183-222 | a readable file of a sibling directory sharing the prefix is served with 200 as written and forbidden with the intended check |
| HttpAccess.SiblingRequestServed | server.js:163-222 | with public directory `/srv/app/public`, `GET /../public-private/secret.txt` is served as written and forbidden with the intended check |
| HttpAccess.RootIsIndex | server.js:163-166 | `/` is answered as `/index.html` |
| HttpAccess.InitDataServed | server.js:168-175 | `/init_data.json` names the writable file when it exists and the bundled one otherwise, and is never forbidden |
| HttpAccess.ReadErrors | server.js:205-216 | a missing file is 404, any other read error 500 with its code |
| HttpAccess.ContentTypeOfPage | server.js:193-221 | a served page carries the type of its extension |
| HttpAccess.PageTypes | server.js:193-204 | `.html`, `.js`, `.json` and no extension map to their types |
| Arbitration.ClassifyRoles | server.js:400-438 | an operation client is master exactly when its token is current, or is the grace token in time, or it has none while no master is recorded; other operation clients are slaves, all others viewers |
| Arbitration.Classify | server.js:400-438 | a new master is the recorded master and is sent the token now current: the one it supplied when that was current, else its unexpired grace token, else the generated one; the grace record is cleared only when its token is used; any other outcome changes nothing and sends no token |
| Arbitration.UnknownTokenIsSlave | server.js:422-425 | an unrecognised token makes a slave |
| Arbitration.GraceWindow | server.js:403-421 | the grace token brings its master back before expiry, clearing the grace record; from expiry on it only makes a slave |
| Arbitration.CurrentTokenTakesOver | server.js:402-413 | the current token makes its holder the recorded master whoever was recorded before, keeps the token and the grace record, and is sent back unchanged |
| Arbitration.TokenlessHandshake | server.js:426-437 | without a token, an operation client becomes master with the generated token only while no master is recorded, and the grace record is kept; otherwise it is a slave and nothing changes |
| Arbitration.ViewerLeavesControl | server.js:394-439 | a non-operation client is a viewer and changes nothing |
| Arbitration.DefaultClientType | server.js:392 | a handshake without a client type is a board's |
| Arbitration.DistinctIff | server.js:35 | the no-repetition predicate means any two positions differ |
| Arbitration.OldestSlave | server.js:125-131 | a pick is a listed candidate: an operation slave other than the excluded id |
| Arbitration.OldestSlaveSpec | server.js:125-131 | a pick exists exactly when a candidate is listed; it connected no later than any candidate and strictly before every candidate listed earlier (the stable sort's tie-break) |
| Arbitration.RouteRules | server.js:389-503 | a release is acted on only from the master; a message is an update exactly when typed `game_state_update` or untyped; the proposed state is `data.data` or the message itself |
| Arbitration.RouteOf | server.js:383-503 | a message is dropped exactly when it parses to `null`; a release is routed only from the master |
| Arbitration.SendTo | server.js:100-104 | a message is delivered only to an open connection |
| Arbitration.Deliveries | server.js:112-117 | a broadcast makes at most one delivery per listed client, each of the broadcast message to an open client other than the sender |
| Arbitration.DeliveriesIff | server.js:112-117 | a broadcast reaches every open listed client except the sender, and nobody else |
| Session.WithoutSpec | server.js:541 | deleting a client keeps every other one and keeps the list free of repetitions |
| Session.Session.constructor | server.js:32-40 | the server starts with no clients, no master, no token, no grace record and the loaded game state |
| Session.Session.Send | server.js:100-104 | the outbox grows by the message exactly when the connection is open |
| Session.Session.Register | server.js:447 | `clients.set`: the record is replaced, and a new id goes to the end of the order |
| Session.Session.Connect | server.js:354-362 | a fresh id, open, with its handshake timer pending |
| Session.Session.HandshakeTimeout | server.js:362-381 | a connection not yet registered is registered as a board viewer at the end of the order and sent the state; an already registered one is left alone |
| Session.Session.Receive | server.js:383-531 | a message has exactly the effect of the handler its route selects, judged on the sender's role before the message (`RouteEffect`); every field outside that handler's reach is unchanged, and a dropped or ignored message changes nothing |
| Session.Session.Handshake | server.js:389-470 | the role and control record are `Classify`'s, the first registration time and the order position are kept (a new client goes last), the handshake timer is cleared, and the role then the state are sent (`HandshakeEffect`) |
| Session.Session.Admit | server.js:441-467 | the decision is applied, the client recorded (at the end of the order if new), and the role assignment and state are sent |
| Session.Session.Promote | server.js:125-156 | the oldest candidate becomes the recorded master with a new token and is told so; without one nothing changes |
| Session.Session.Release | server.js:474-495 | the token is revoked, the releaser becomes a slave, the oldest other slave is promoted with a new token, the releaser is told to drop its token, and the grace record, registrations and game state are kept (`ReleaseEffect`) |
| Session.Session.Demote | server.js:482 | the client's role becomes slave and nothing else changes |
| Session.Session.Update | server.js:497-531 | a non-master's proposal changes nothing, the saved state included; an invalid one is answered with the error alone; a valid one becomes the sanitised current state, is saved and is sent to every other client (`UpdateEffect`) |
| Session.Session.Broadcast | server.js:112-117 | the outbox grows by exactly the broadcast's deliveries, in registration order |
| Session.Session.Close | server.js:537-564 | the client leaves the map, the order and the open set; a master's token becomes the grace token until `now + 5000`, no master is recorded and a grace timer is set; otherwise control is unchanged |
| Session.Session.Forget | server.js:539-541 | the client leaves the map and its order |
| Session.Session.GraceExpired | server.js:553-561 | when no master was recorded since and the grace record remains, the record is cleared and the oldest slave is promoted and told so (or nobody is told when there is none); otherwise nothing changes |
| ControlPanel.ResetsKeepRanges | public/js/main.js:123-156 | the resets and the change of offense keep every counter in range |
| ControlPanel.CountersKeepRanges | public/js/main.js:164-193 | the count buttons keep every counter in range |
| ControlPanel.ScoresKeepRanges | public/js/main.js:232-247 | the score buttons keep every counter in range |
| ControlPanel.StatusButtonsKeepRanges | public/js/main.js:194-205 | the game-status buttons keep every counter in range |
| ControlPanel.HalfInningButtonsKeepRanges | public/js/main.js:206-231 | forward and backward keep every counter in range |
| ControlPanel.CounterSteps | public/js/main.js:164-193 | up adds one below the cap, down subtracts one above zero, and nothing else changes |
| ControlPanel.ScoreSteps | public/js/main.js:232-247 | a score goes up by one, or down by one but not below zero |
| ControlPanel.HalfInningSteps | public/js/main.js:206-231 | forward moves one half-inning on and clears the count; backward moves one back and clears it; neither moves past the ends |
| ControlPanel.HalfIndexDetermines | public/js/main.js:206-231 | the half-inning index fixes inning and half |
| ControlPanel.BackwardUndoesForward | public/js/main.js:206-231 | within the game, backward after forward returns to the same half-inning |
| ControlPanel.ForwardUndoesBackward | public/js/main.js:206-231 | within the game, forward after backward returns to the same half-inning |
| ControlPanel.BackwardScores | public/js/main.js:217-231 | going back to before the game clears the scores, otherwise they are kept |
| ControlPanel.Panel.constructor | public/js/main.js:123-130 | the panel starts before the game with everything at zero |
| ControlPanel.Panel.InitParams | public/js/main.js:123-130 | `initParams` as `Cleared` |
| ControlPanel.Panel.ResetBso | public/js/main.js:131-135 | `resetBSO` as `ClearedBso` |
| ControlPanel.Panel.ResetBs | public/js/main.js:136-139 | `resetBS` as `ClearedBs` |
| ControlPanel.Panel.ChangeOffense | public/js/main.js:149-156 | `changeOffense` as `OffenseChanged` |
| ControlPanel.Panel.BallCountUp | public/js/main.js:164-168 | `ballCountUp` as `CountUp` on balls |
| ControlPanel.Panel.BallCountDown | public/js/main.js:169-173 | `ballCountDown` as `CountDown` on balls |
| ControlPanel.Panel.StrikeCountUp | public/js/main.js:174-178 | `strikeCountUp` as `CountUp` on strikes |
| ControlPanel.Panel.StrikeCountDown | public/js/main.js:179-183 | `strikeCountDown` as `CountDown` on strikes |
| ControlPanel.Panel.OutCountUp | public/js/main.js:184-188 | `outCountUp` as `CountUp` on outs |
| ControlPanel.Panel.OutCountDown | public/js/main.js:189-193 | `outCountDown` as `CountDown` on outs |
| ControlPanel.Panel.GameStatusUp | public/js/main.js:194-199 | `gameStatusUp` as `StatusUp` |
| ControlPanel.Panel.GameStatusDown | public/js/main.js:200-205 | `gameStatusDown` as `StatusDown` |
| ControlPanel.Panel.GameForward | public/js/main.js:206-216 | `gameForward` as `Forward` |
| ControlPanel.Panel.GameBackward | public/js/main.js:217-231 | `gameBackward` as `Backward` |
| ControlPanel.Panel.IncrementScoreTop | public/js/main.js:232-235 | `incrementScoreTop` as `ScoreUp` on the top side |
| ControlPanel.Panel.DecrementScoreTop | public/js/main.js:236-239 | `decrementScoreTop` as `ScoreDown` on the top side |
| ControlPanel.Panel.IncrementScoreBottom | public/js/main.js:240-243 | `incrementScoreBottom` as `ScoreUp` on the bottom side |
| ControlPanel.Panel.DecrementScoreBottom | public/js/main.js:244-247 | `decrementScoreBottom` as `ScoreDown` on the bottom side |
| InningDisplay.InningMsg | public/js/main.js:140-163 | the caption is never empty, and `isPlaying` holds exactly when it is neither the pre-game nor the game-over text |
| InningDisplay.CaptionNamesInning | public/js/main.js:140-148 | during play the caption is the inning in decimal, `回`, then the half |
| InningDisplay.BoardInningMsg | public/js/Scoreboard.js:176-190 | the board's caption is empty exactly when there is no data or no inning |
| InningDisplay.BoardIsPlaying | public/js/Scoreboard.js:176-198 | on the board, in play exactly when the caption is none of empty, pre-game and game-over |
| Reconnect.DelayBounds | public/js/board.js:105-108 | the delay is between 1 and 30 seconds: doubling from 1 second for the first five attempts, 30 seconds from the sixth |
| Reconnect.DelayDoubles | public/js/board.js:105-108 | below the cap each delay is twice the one before |
| Reconnect.Delay | public/js/board.js:105-108 | every delay lies between 1 and 30 seconds |
| Reconnect.BoardConnection.constructor | public/js/board.js:21-25 | connecting, no attempts, no timer |
| Reconnect.BoardConnection.CancelReconnect | public/js/board.js:118-123 | the held timer is cleared and forgotten |
| Reconnect.BoardConnection.ScheduleReconnect | public/js/board.js:94-116 | with attempts left, exactly one new timer is pending and held, set with the backoff delay of the coming attempt, and the status is kept; after ten attempts the board is disconnected with no timer (`Scheduled`) |
| Reconnect.BoardConnection.ConnectWebSocket | public/js/board.js:49-65 | a created socket changes nothing here; a failed creation schedules a reconnection as `scheduleReconnect` does |
| Reconnect.BoardConnection.HandleOpen | public/js/board.js:67-71 | connected, and the attempts start again from zero |
| Reconnect.BoardConnection.HandleClose | public/js/board.js:85-92 | a board that gave up stays so; otherwise it is reconnecting and a timer with the delay of the coming attempt is held and pending, or, with the attempts used up, it gives up |
| Reconnect.BoardConnection.TimerFires | public/js/board.js:112-115 | a firing counts one attempt, never beyond ten; a failed socket schedules the next attempt with the next delay, or gives up after the tenth |
| InitData.DigitPrefix | generate-init-data.js:19 | the leading digits: a prefix, all digits, stopping at the first non-digit |
| InitData.ValidateTeams | generate-init-data.js:10-15 | an accepted team list is an array of two teams or more and comes back whole; every refusal is the team error |
| InitData.ValidateInnings | generate-init-data.js:18-25 | an accepted inning count lies between 1 and 9 |
| InitData.ParseIntOfDecimal | generate-init-data.js:19 | `parseInt` reads a number's decimal text back as the number |
| InitData.DecimalInningsAccepted | generate-init-data.js:18-25 | a decimal inning count is accepted exactly when between 1 and 9 |
| InitData.ParseIntStopsAtNonDigit | generate-init-data.js:19 | `parseInt` reads the digits up to the first non-digit |
| InitData.ParseIntSkipsSpace | generate-init-data.js:19 | leading whitespace does not change `parseInt` |
| InitData.ParseIntOfNonNumber | generate-init-data.js:19 | any text gives `NaN` exactly when no digit follows its leading whitespace and optional sign |
| InitData.ParseSignedDigits | generate-init-data.js:19 | after the leading whitespace, the digits right after the optional sign are read, negated after `-` |
| InitData.ParseIntStopsAtComma | generate-init-data.js:19 | `parseInt` stops at a comma: whatever follows it does not change the number read |
| InitData.ArrayReadAsJoinedText | generate-init-data.js:19 | an array of texts given as innings is read as the texts joined with commas, that is, as its first text |
| InitData.ArrayInningsExamples | generate-init-data.js:18-25 | `[7]` is accepted as 7, `["3", 4]` as 3, and the empty array is refused |
| InitData.GenerateGameArray | generate-init-data.js:28-35 | the loop builds pre-game, the innings 1 to `lastInning` in order, and game-over |
| InitData.GameArrayShape | generate-init-data.js:28-35 | the game array has `n + 2` entries: pre-game, `1..n`, game-over |
| InitData.GenerateInitData | generate-init-data.js:38-50 | a configuration carries the title given and an inning count from 1 to 9; a refusal is the team or the innings error |
| InitData.GenerateInitDataAccepts | generate-init-data.js:38-50 | a configuration is produced exactly when there are two teams or more and the innings are valid; the team check comes first |
| InitData.GenerateInitDataContents | generate-init-data.js:38-50 | the configuration holds the title, the first two teams as top and bottom, the game array, the blank entry then all teams, and the inning count |
| InitData.TeamValues | generate-init-data.js:197 | each team name becomes a string value, in order |
| InitData.TeamListClean | generate-init-data.js:177 | every team from `--teams` is non-empty, trimmed and comma-free |
| InitData.TeamListOfJoined | generate-init-data.js:177 | clean names joined with commas are read back as the same list |
| InitData.ParseArguments | generate-init-data.js:166-183 | the argument loop computes `ParseFrom` |
| InitData.ParseFrom | generate-init-data.js:166-183 | the help text is shown only when a help flag is present; without one the options are always read |
| InitData.FlagField | generate-init-data.js:170-178 | `--title`/`-t`, `--innings`/`-i` and `--teams` are the flags that take a value, each for its own option |
| InitData.ConsumingFlagStep | generate-init-data.js:170-178 | a value-taking flag followed by a non-empty argument consumes both and sets its option |
| InitData.OptionsComeFromFlags | generate-init-data.js:166-183 | a parsed title is the non-empty value after some `--title`/`-t` |
| InitData.LaterFlagOverrides | generate-init-data.js:166-183 | when the remaining arguments set an option again, the value it held before does not affect the outcome |
| InitData.EarlierFlagIgnored | generate-init-data.js:166-183 | a value-taking flag whose option is set again later has no effect at all |
| InitData.LaterFlagWins | generate-init-data.js:170-178 | of two adjacent flags for the same option, the later one's value is read (`--title x -t y` reads `y`) |
| InitData.TeamsAreClean | generate-init-data.js:177 | the teams parsed are clean names |
| InitData.CommandLineOutcomes | generate-init-data.js:185-197 | the tool fails with the missing-title error exactly when no title was read; a title with a single team fails the team check; a generated configuration carries the title read and, after the blank entry, only clean team names |
| InitData.CommandLineMode | generate-init-data.js:159-199 | the outcome is the help text exactly when the arguments hold a help flag the parse reaches; a generated configuration carries the title read and an inning count from 1 to 9 |
| InitData.SelectModeIff | generate-init-data.js:233-246 | no arguments means interactive; a first argument ending in `.yaml`/`.yml` means YAML mode |
| InitData.SelectMode | generate-init-data.js:233-246 | YAML mode reads the first argument; command-line mode gets all the arguments, of which there is at least one |

## Left out

- The network, the file system, timers, the clock and random ids and tokens. Times, generated tokens, resolved paths and file contents are parameters. Firing a timer is a method the environment calls.
- JSON parsing and serialisation. Messages arrive as parsed values, and a message that fails to parse is dropped.
- Logging, `console.error` and the `error` handlers of sockets (server.js:566-568). They change no state.
- `loadGameState`/`saveGameState` (server.js:46-94). The loaded state is a constructor argument, and saving is a `persisted` field.
- `path.join`/`path.resolve` normalisation, `fs.existsSync` and `fs.statSync`. They are the `resolve`, `read` and `fs` inputs of `HttpAccess` and `FilePath`.
- JavaScript strings are UTF-16. Here they are sequences of code points, and `toLowerCase` is modelled for ASCII only.
- GameStateValidation.CheckField: string lengths are counted in code points, while `value.length` (server.js:299) counts UTF-16 units. A string with characters outside the Basic Multilingual Plane can be within the limit here and over it in the server.
- Numbers are reals. IEEE rounding, `NaN` and infinities in incoming JSON are not modelled.
- InitData.ParseInnings: a number given as innings, alone or as an array's first element, is truncated toward zero, as `parseInt` reads its decimal text. Exponent notation of very large or very small numbers is not modelled.
- The interactive and YAML modes of `generate-init-data.js` (readline and `js-yaml`). Their mode selection is modelled, but not their prompts or parsing. The backup and writing of `init_data.json` are left out too.
- The operation panel's Vue wiring, team and title editing, and the restore of state from WebSocket messages (public/js/main.js:37-62). The board's rendering and its use of received colours are left out too.
- Sanitize.SanitizeHtml: it is not idempotent. Sanitising `&l&amp;t;` yields `&lt;`, which a second pass turns into `<`. So no idempotence is claimed, and `SanitizeNotIdempotent` exhibits the counterexample.
- Session.Session.Valid: there is no "at most one master" invariant. A current-token handshake records a new master without demoting the old one, and `masterClientId` can name a client that was re-registered as a viewer. The model keeps both behaviours.
- Session.Session.HandshakeTimeout: the handshake timer is never cleared on close, so it can register a connection that has already closed. The model keeps this behaviour.

## Findings

| source | as written | input that shows it | evidently intended | confidence | as-written member | corrected member |
|---|---|---|---|---|---|---|
| server.js:183 | the public-file test is `filePath.startsWith(publicDir)` | public directory `/srv/app/public`; `GET /../public-private/secret.txt` resolves to `/srv/app/public-private/secret.txt`, which passes | only the public directory itself and the paths below it (`publicDir + "/"…`) are served | not executed | HttpAccess.SiblingRequestServed | HttpAccess.IntendedServesOnlyPublic |
