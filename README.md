# Highlight engine of a chat client, modelled in Dafny

This project models the highlight controller of a Twitch chat client. The
controller decides, for each incoming chat message, whether the message is
highlighted, and with what alert, sound, custom sound, colour and
mention setting. It has two halves:

- **The rule rebuilder** (`rebuildChecks` and the `rebuild*Highlights`
  helpers). It clears the controller's rule vector and appends rules in a
  fixed order: the subscription rule (if enabled), the whisper rule (if
  enabled), one rule per highlighted user, the self-highlight rule (if
  enabled and the user name is non-empty), one rule per highlighted phrase,
  and one rule per highlighted badge.
- **The evaluator** (`HighlightController::check`). It walks the rules in
  order. Every match sets the `highlighted` flag and merges that rule's
  result into the running result. `alert` and `playSound` are or-ed.
  `customSoundUrl` and `color` keep the first value set. `showInMentions`
  is never touched. The walk stops as soon as the result is full.

Files and modules:

- `types.dfy` (`HighlightTypes`): messages, badges, configured phrases and
  badges, the settings record, the highlight result with `Full()` and
  `EmptyResult`, and `Providers`. `Providers` holds the external
  collaborators a rule consults at check time.
- `rules.dfy` (`HighlightRules`): the rule as a tagged variant
  (`HighlightCheck`). `Apply` is what each rule's callback returns.
  `RunCheck` is the callback as code, including the badge search loop.
- `merge.dfy` (`HighlightMerge`): `Merge` is one merge step. `Evaluate` is
  the walk with its early exit. `EvaluateAll` is the walk without it. The
  lemmas state what the merged answer means.
- `rebuild.dfy` (`HighlightRebuild`): `BuildChecks` is the list the
  rebuilder produces, built from one function per helper. Lemmas cover
  category order, the contents of each category, and when the optional
  rules appear.
- `controller.dfy` (`Controller`): `CheckVector` is the controller's rule
  vector, a class updated in place. The module also holds the five rebuild
  helpers as methods that append to it, and the `HighlightController`
  class with `RebuildChecks` and `Check`.
- `scenarios.dfy` (`HighlightScenarios`): end-to-end consequences of a
  rebuild followed by a check, for small configurations.

Modelling choices:

- Matching and custom sounds are abstract. Whether a phrase or badge
  matches (`isMatch`) and whether it has a custom sound (`hasCustomSound`)
  are decided by code outside this model. They are function-valued fields
  of `Providers`. The other accessors (`hasAlert`, `hasSound`,
  `getSoundUrl`, `getColor`, `showInMentions`) are plain fields of
  `HighlightPhrase` and `HighlightBadge`.
- Colours are read at two different times. The subscription and whisper
  rules ask the colour provider for their colour each time they match, so
  those colours are part of `Providers`, which `Check` receives. The
  self-highlight colour is read once, when the rule is built, so
  `RebuildChecks` receives it as a parameter, along with the current user
  name.
- Colour references are shared pointers that can be null, so they are
  modelled as `Option<Color>`.
- The source reads the subscription rule's custom sound from
  `whisperHighlightSoundUrl`. The model keeps this
  (`SubscriptionChecks`, `RebuildSubscriptionHighlights`), and
  `SubscriptionUsesWhisperSoundUrl` states it.
- `full()` and `emptyResult()` are defined in a header that is not part of
  this model. `Full()` is taken to mean that `alert`, `playSound`,
  `customSoundUrl` and `color` are all set. `EmptyResult` is taken to have
  every field false or absent.

Three behaviours of the code are worth stating:

- The self-highlight rule is an ordinary phrase rule built from the user
  name. It tests only the message text, not the sender name.
- The code has no path that skips a malformed pattern. Every configured
  highlight becomes a rule.
- A phrase's `showInMentions` value reaches the rule's own result, but the
  evaluator never merges it. `Check` therefore always returns
  `showInMentions == false` (see `SinglePhrase`).

## Model

| member | source | states |
|---|---|---|
| HighlightRules.AnyBadgeMatches | src/controllers/highlights/HighlightController.cpp:197-217 | a badge rule's search succeeds exactly when some badge of the message satisfies the configured badge |
| HighlightRules.Apply | src/controllers/highlights/HighlightController.cpp:11-218 | subscription and whisper rules match exactly on their message flag; user rules match exactly when the sender name matches; phrase rules (including the self-highlight) match exactly when the message text matches; badge rules match exactly when some badge matches |
| HighlightRules.InspectedInputs | src/controllers/highlights/HighlightController.cpp:12-218 | each rule's whole outcome depends only on the one input it inspects: the flag, the sender name, the text or the badge list |
| HighlightRules.ResultTemplates | src/controllers/highlights/HighlightController.cpp:24-212 | only phrase rules can produce showInMentions, and then exactly the phrase's value; phrase, user and badge rules supply a custom sound exactly when their highlight has one, and copy its alert, sound and colour; subscription and whisper rules give the values captured at rebuild and the provider's colour at check time |
| HighlightRules.RunCheck | src/controllers/highlights/HighlightController.cpp:12-218 | running a rule's callback, including the badge loop that returns at the first matching badge, yields exactly the rule's outcome `Apply` |
| HighlightMerge.MergeIntoFull | src/controllers/highlights/HighlightController.cpp:313-345 | merging any result into a full result leaves it unchanged |
| HighlightMerge.FullIsFinal | src/controllers/highlights/HighlightController.cpp:345-349 | once the result is full, the remaining rules change neither the flag nor the result |
| HighlightMerge.EarlyExitIsHarmless | src/controllers/highlights/HighlightController.cpp:305-351 | the walk that breaks when the result is full gives the same flag and result as processing every rule |
| HighlightMerge.MatchFlag | src/controllers/highlights/HighlightController.cpp:299-311 | `highlighted` is true exactly when some rule matched |
| HighlightMerge.FlagsAreOred | src/controllers/highlights/HighlightController.cpp:313-327 | `alert` and `playSound` are the or of the matching rules' values |
| HighlightMerge.SoundUrlFirstWins | src/controllers/highlights/HighlightController.cpp:329-335 | `customSoundUrl` is that of the earliest matching rule that supplies one, absent if none does, and never overwritten once set |
| HighlightMerge.ColorFirstWins | src/controllers/highlights/HighlightController.cpp:337-343 | `color` is that of the earliest matching rule that supplies one, absent if none does, and never overwritten once set |
| HighlightMerge.MentionsUntouched | src/controllers/highlights/HighlightController.cpp:313-343 | the merge leaves `showInMentions` at its starting value |
| HighlightMerge.NoMatchChangesNothing | src/controllers/highlights/HighlightController.cpp:299-353 | when no rule matches, the flag and the result come back as they started, so that is `(false, emptyResult)` |
| HighlightRebuild.BuildChecksLength | src/controllers/highlights/HighlightController.cpp:271-290 | the rebuilt list has one rule per enabled optional rule and one per configured user, phrase and badge |
| HighlightRebuild.BuildChecksOrdered | src/controllers/highlights/HighlightController.cpp:274-290 | in the rebuilt list, subscription comes before whisper, whisper before user, user before message, and message before badge |
| HighlightRebuild.BuildChecksByCategory | src/controllers/highlights/HighlightController.cpp:38-290 | each category of the rebuilt list holds exactly its configured highlights in configured order; the message category is the self-highlight rule followed by the configured phrases |
| HighlightRebuild.OptionalRulesPresence | src/controllers/highlights/HighlightController.cpp:41-136 | the subscription rule is present iff enabled; the whisper rule is present iff enabled; the self-highlight rule is present iff enabled and the user name is non-empty, and then it heads the message category |
| HighlightRebuild.SubscriptionUsesWhisperSoundUrl | src/controllers/highlights/HighlightController.cpp:43-51 | the subscription rule's custom sound comes from the whisper sound setting (absent when that setting is empty), the same as the whisper rule's |
| Controller.RebuildSubscriptionHighlights | src/controllers/highlights/HighlightController.cpp:38-79 | appends the subscription rule when enabled, and otherwise leaves the vector unchanged |
| Controller.RebuildWhisperHighlights | src/controllers/highlights/HighlightController.cpp:81-119 | appends the whisper rule when enabled, and otherwise leaves the vector unchanged |
| Controller.RebuildMessageHighlights | src/controllers/highlights/HighlightController.cpp:121-144 | appends the self-highlight rule when enabled with a non-empty user name, then one phrase rule per configured phrase in order |
| Controller.RebuildUserHighlights | src/controllers/highlights/HighlightController.cpp:146-181 | appends one user rule per configured user, in order |
| Controller.RebuildBadgeHighlights | src/controllers/highlights/HighlightController.cpp:183-220 | appends one badge rule per configured badge, in order |
| Controller.HighlightController.RebuildChecks | src/controllers/highlights/HighlightController.cpp:266-291 | the vector afterwards is the list built from the inputs alone, whatever it held before |
| Controller.RebuildTwice | src/controllers/highlights/HighlightController.cpp:271-272 | rebuilding twice from the same inputs leaves the same list as rebuilding once |
| Controller.HighlightController.Check | src/controllers/highlights/HighlightController.cpp:293-354 | the loop with its break computes the early-exit walk, and that equals processing every rule; highlighted iff some rule matches; no match gives exactly the empty result; showInMentions is never set |
| HighlightScenarios.EmptyConfiguration | src/controllers/highlights/HighlightController.cpp:271-353 | the rebuilt list is empty iff nothing is configured, and then every message gets `(false, emptyResult)` |
| HighlightScenarios.WhisperOnly | src/controllers/highlights/HighlightController.cpp:81-119 | with only whisper highlights on (alert, no sound), a whisper gives `(true, alert, no sound, no custom sound, whisper colour, not in mentions)` and any other message gives `(false, emptyResult)` |
| HighlightScenarios.SinglePhrase | src/controllers/highlights/HighlightController.cpp:9-36 | with one configured phrase, a matching text gives that phrase's result with showInMentions false; a non-matching text gives `(false, emptyResult)` |
| HighlightScenarios.SingleBadge | src/controllers/highlights/HighlightController.cpp:183-220 | with one configured badge, a message is highlighted iff one of its badges matches |
| HighlightScenarios.EarlierColorWins | src/controllers/highlights/HighlightController.cpp:337-343 | the colour of the earliest rule that supplies one is reported, whatever later rules supply; a later matching rule with a different colour never replaces it |

## Left out

- `HighlightController::initialize`: it only registers setting listeners and signal connections that call `rebuildChecks`. This is event plumbing; the model has `RebuildChecks` itself.
- The locking of `checks_` (`access()` and `accessConst()`): this is concurrency. The rule vector is a plain object. `Check` reads one snapshot of it, and `RebuildChecks` replaces its contents.
- Global singletons (the colour provider, the account manager, the settings instances): the subscription, whisper and self-highlight colours, the current user name and the configured lists are explicit inputs.
- How `HighlightPhrase` and `HighlightBadge` match and detect a custom sound (regular expressions, case handling): these are abstract functions in `Providers`.
- `full()` and `emptyResult()`: their header is not part of this model. The assumed definitions are given above.
- `BenchmarkGuard`, `qDebug` logging, and the QString, QUrl and QColor representations: URLs are strings, colours are opaque values, and logging is dropped.
- The conversion of a sound-URL setting string into a URL for the self-highlight phrase: the phrase stores the setting text as it is.
- chatwidgetheader.cpp: painting, mouse handling and drag-and-drop gestures. It has no logic the engine depends on.
