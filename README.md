# Digit dictation game: a verified model of the game page

The game page speaks a secret password of 3 to 8 digits. When the speech
ends, a 12-slot telephone keypad becomes active and the player types the
password back. Depending on the shuffle setting, the keypad may have been
shuffled with Fisher-Yates. A complete entry is compared with the secret.
A match reports success, reshuffles the keypad unless the policy is
'never', draws a new password and restores the attempts. A mismatch uses up
one attempt and can schedule an automatic replay. Settings choose:

- the password length;
- a custom password;
- the shuffle frequency ('every game', 'every round', 'never');
- automatic replay on error;
- the maximum number of attempts.

The model has four modules:

- `Digits` (`digits.dfy`): digit characters and one-character keys. It has the
  digit filter of the custom-password field, `join('')` and `split('')`.
- `FisherYates` (`shuffle.dfy`): the shuffle as a function of its draws. It
  proves that the shuffle only permutes, and that each arrangement of
  distinct elements comes out of exactly one sequence of draws.
- `Keypad` (`keypad.dfy`): the 12-slot template and `shuffleDialPad` as a
  loop over an array, proved equal to the shuffle function. It also holds the
  layout invariant: blanks at slots 9 and 11, each digit exactly once.
- `Game` (`game.dfy`): the page state as a class `Session`. There is one field
  per piece of state, one method per handler, and `Valid()` as the invariant
  every handler keeps.

A fifth module, `Scenarios` (`scenarios.dfy`), drives whole games through
the handlers.

Randomness is passed in as a parameter:

- `draws` holds the values of `Math.floor(Math.random() * 10)` for a new
  password.
- `swaps[k]` is the index `j` drawn at step `k` of the keypad shuffle, when
  `i = 9 - k`.

A handler runs to completion. Its state writes are all visible when it
returns, as React's setters make them visible at the next render. The two
timers of a number click are separate methods, run whenever the timer fires:

- the entry clear (`ClearInput`);
- the replay (`SpeakPassword`).

## Model

| member | source | states |
|---|---|---|
| Digits.DigitKey | src/pages/Game.tsx:47 | the key `d.toString()` of a digit d is one character whose digit value is d |
| Digits.FilterDigits | src/pages/Game.tsx:55 | the result holds only digits and is no longer than the input. Each digit character occurs in it as often as in the input, and no other character occurs. It equals the input iff the input is all digits |
| Digits.FilterDigitsChar | src/pages/Game.tsx:55 | a single character is kept iff it is a digit |
| Digits.FilterDigitsAppend | src/pages/Game.tsx:55 | filtering a concatenation is the concatenation of the filtered parts, so the digits keep their order |
| Digits.Join | src/pages/Game.tsx:167 | `join('')` of digit keys is a digit string with one character per key |
| Digits.Split | src/pages/Game.tsx:64 | one one-character key per character, in order; a digit string gives digit keys |
| Digits.JoinOfDigitKeys | src/pages/Game.tsx:167 | joining digit keys spells one character per key, the k-th being key k's digit |
| Digits.JoinDigitKeysInjective | src/pages/Game.tsx:167 | for digit keys, equal joined strings iff equal key arrays |
| Digits.JoinSplit | src/pages/Game.tsx:64 | `split('')` then `join('')` gives the custom password back |
| FisherYates.Swap | src/pages/Game.tsx:80 | the destructuring exchange: positions i and j trade elements, every other position is kept |
| FisherYates.Shuffle | src/pages/Game.tsx:78-81 | the shuffle after the given draws keeps the length |
| FisherYates.ShuffleSnoc | src/pages/Game.tsx:78-81 | one more draw performs one more exchange, at position n - 1 - (draws so far) |
| FisherYates.ShufflePrefixStep | src/pages/Game.tsx:78-81 | step k of the loop (i = n - 1 - k) turns the shuffle after k draws into the shuffle after k + 1 draws |
| FisherYates.ShuffleStepUpdate | src/pages/Game.tsx:78-81 | step n of the loop, written as the exchange the loop body performs, turns the shuffle after n draws into the shuffle after n + 1 draws |
| FisherYates.ShuffleUnfold | src/pages/Game.tsx:78-81 | the last draw of a prefix is the last exchange performed |
| FisherYates.NoSwaps | src/pages/Game.tsx:79 | the draws j == i at every step are valid draws, one per step |
| FisherYates.ShuffleWithoutSwapsIsIdentity | src/pages/Game.tsx:78-81 | drawing j == i at every step leaves the sequence unchanged |
| FisherYates.SwapPermutes | src/pages/Game.tsx:80 | an exchange keeps the multiset of elements |
| FisherYates.ShufflePermutes | src/pages/Game.tsx:78-81 | the shuffle keeps the multiset of elements, whatever the draws |
| FisherYates.SwapKeepsPrefix | src/pages/Game.tsx:79-80 | an exchange with j <= i permutes the first i + 1 positions and keeps the rest |
| FisherYates.FixPosition | src/pages/Game.tsx:78 | once position i is fixed, the open prefix shrinks to the first i positions |
| FisherYates.ReachStep | src/pages/Game.tsx:79-80 | a draw j <= i exists that puts any wanted remaining element at position i |
| FisherYates.EveryArrangementReachable | src/pages/Game.tsx:78-81 | every permutation of the input is the outcome of some full set of draws |
| FisherYates.PrefixValid | src/pages/Game.tsx:78-79 | the draws of the first k steps are valid draws |
| FisherYates.SwapKeepsDistinct | src/pages/Game.tsx:80 | an exchange of distinct elements leaves them distinct |
| FisherYates.ShuffleKeepsDistinct | src/pages/Game.tsx:78-81 | shuffling distinct elements leaves them distinct |
| FisherYates.LaterStepsKeepSuffix | src/pages/Game.tsx:78-81 | steps after step k leave the top k + 1 positions unchanged, as the loop index only goes down |
| FisherYates.ShuffleAtStep | src/pages/Game.tsx:79-80 | the final element at position n - 1 - m is the one step m drew there, and no later step moves it |
| FisherYates.StepDetermined | src/pages/Game.tsx:79-80 | two draw sequences that agree before step m and shuffle distinct elements to the same arrangement agree at step m |
| FisherYates.DrawsDetermineShuffle | src/pages/Game.tsx:78-81 | draw sequences that shuffle distinct elements to the same arrangement are equal. With EveryArrangementReachable, each arrangement comes from exactly one draw sequence |
| Keypad.Template | src/pages/Game.tsx:83-88 | 12 slots whose digit slots (0-8 and 10) are the ten keys in order |
| Keypad.ShuffleDialPad | src/pages/Game.tsx:74-89 | the in-place loop over a copy of "1".."9","0" yields the template filled with `Shuffle(Numbers, swaps)` |
| Keypad.CanonicalIsUnshuffled | src/pages/Game.tsx:28 | the initial and 'never' keypad is the template of the unshuffled digits, which the no-exchange draws yield |
| Keypad.NumbersInOrder | src/pages/Game.tsx:76 | the digits before shuffling are "1" to "9" followed by "0" |
| Keypad.CanonicalInOrder | src/pages/Game.tsx:37 | the canonical keypad is 1-9, blank, 0, blank |
| Keypad.ShuffledIsLayout | src/pages/Game.tsx:74-89 | every shuffled keypad is a layout: blanks at 9 and 11, the ten digits in the other slots |
| Keypad.LayoutSlots | src/pages/Game.tsx:83-88 | in a layout the blank is exactly at slots 9 and 11, and every other slot holds a digit |
| Keypad.NumbersAreDigitKeys | src/pages/Game.tsx:76 | the starting digits are digit keys, none of them blank |
| Keypad.NumbersDistinct | src/pages/Game.tsx:76 | the ten starting digits are pairwise different |
| Keypad.LayoutMultiset | src/pages/Game.tsx:83-88 | a layout holds the ten digits and two blanks |
| Keypad.LayoutHoldsEachDigitOnce | src/pages/Game.tsx:83-88 | each digit occurs exactly once in a layout, the blank twice, anything else never |
| Keypad.DigitFillsOneSlot | src/pages/Game.tsx:83-88 | each digit occurs exactly once in a layout |
| Keypad.BlankFillsTwoSlots | src/pages/Game.tsx:87 | the blank occurs exactly twice in a layout and is not a digit |
| Keypad.NumberOnce | src/pages/Game.tsx:76 | each starting digit occurs once among the starting digits |
| Keypad.TemplateOfSlots | src/pages/Game.tsx:83-88 | refilling the template with a keypad's digit slots gives the keypad back |
| Keypad.TemplateIsLayout | src/pages/Game.tsx:83-88 | any arrangement of the ten digits put in the template is a layout |
| Keypad.EveryLayoutReachable | src/pages/Game.tsx:74-89 | every layout is produced by some full set of shuffle draws |
| Keypad.EachLayoutFromOneShuffle | src/pages/Game.tsx:74-89 | different full sets of shuffle draws give different keypads, so each layout comes from exactly one |
| Game.PasswordOf | src/pages/Game.tsx:46-47 | the password of the draws has one digit key per draw |
| Game.RandomPassword | src/pages/Game.tsx:44-48 | the push loop builds `PasswordOf(draws)`: passwordLength digit keys |
| Game.EveryPasswordReachable | src/pages/Game.tsx:46-47 | every digit password of that length comes from some draws, and from only one |
| Game.SameDigits | src/pages/Game.tsx:167 | comparing the joined entry with the joined secret is true iff the entry equals the secret |
| Game.Session.KeypadIsLayout | src/pages/Game.tsx:28-41 | in every valid state the keypad is a layout with blanks only at 9 and 11 and each digit once. With 'never' it is the canonical keypad |
| Game.Session.constructor | src/pages/Game.tsx:10-41 | the initial state, after the mount effect has shuffled the keypad and drawn a 4-digit password |
| Game.Session.GenerateRandomPassword | src/pages/Game.tsx:44-51 | the secret becomes `PasswordOf(draws)` and the custom password is cleared. Nothing else changes |
| Game.Session.RegeneratePassword | src/pages/Game.tsx:323-326 | a new random secret and an empty custom password; Valid is kept |
| Game.Session.ApplyShufflePolicy | src/pages/Game.tsx:31-41 | reshuffle unless 'never', else restore the canonical keypad; then a new password. Valid is established |
| Game.Session.SetShuffleFrequency | src/pages/Game.tsx:289 | choosing the current value changes nothing. A different value stores it and runs the effect at lines 31-41 |
| Game.Session.SetPasswordLength | src/pages/Game.tsx:270-275 | only the length changes, within 3..8; the current secret is kept |
| Game.Session.SetMaxAttempts | src/pages/Game.tsx:358-365 | only the maximum changes, within 1..10, and only while the keypad is inactive |
| Game.Session.SetAutoReplayOnError | src/pages/Game.tsx:344 | only the replay switch changes |
| Game.Session.HandleCustomPasswordChange | src/pages/Game.tsx:54-59 | the digits of the typed value are stored if they fit in passwordLength; otherwise nothing changes |
| Game.Session.ApplyCustomPassword | src/pages/Game.tsx:62-71 | applied iff the custom password has passwordLength digits. The secret then splits it and joins back to it. Otherwise only the message type becomes error |
| Game.Session.SpeakPassword | src/pages/Game.tsx:92-103 | unsupported speech: error message, nothing else. Otherwise listening starts with an info message |
| Game.Session.OnSpeechEnd | src/pages/Game.tsx:110-114 | listening stops and the keypad becomes active; the message type is kept |
| Game.Session.OnSpeechError | src/pages/Game.tsx:116-127 | listening stops with an error; the keypad's activity is kept |
| Game.Session.HandleNumberClick | src/pages/Game.tsx:153-217 | inactive keypad or blank key: nothing changes. An incomplete entry is extended. A complete entry is solved iff it equals the secret, with the full new state of each branch |
| Game.Session.EvaluateEntry | src/pages/Game.tsx:163-210 | a complete entry is solved iff it equals the secret, else wrong; the full new state of each branch |
| Game.Session.EntrySolved | src/pages/Game.tsx:169-184 | keypad off, success, reshuffle unless 'never', new password, custom cleared, attempts restored |
| Game.Session.EntryWrong | src/pages/Game.tsx:186-209 | keypad off, one attempt fewer (possibly below zero), error, replay scheduled iff enabled and attempts remain |
| Game.Session.ReshuffleIfEnabled | src/pages/Game.tsx:177-179 | the keypad is reshuffled exactly when the policy is 'every game' or 'every round'; the keypad invariant is kept |
| Game.Session.ClearInput | src/pages/Game.tsx:213-215 | the delayed clear empties the entry and nothing else |
| Game.Session.RestoreAttempts | src/pages/Game.tsx:235-236 | the maximum becomes both the initial maximum and the remaining count |
| Game.Session.RestoreRemaining | src/pages/Game.tsx:184 | the remaining count returns to the maximum |
| Game.Session.GenerateUnlessCustom | src/pages/Game.tsx:230-232 | a new password only when no custom password is pending; otherwise the secret is kept |
| Game.Session.StartNewGame | src/pages/Game.tsx:220-238 | empty entry, keypad off, reshuffle unless 'never', a new password unless a custom one is pending, attempts restored |
| Scenarios.ReadyWithCustom | src/pages/Game.tsx:62-71 | mount, apply a custom password, listen to the end: the keypad is active, nothing typed, 3 attempts |
| Scenarios.TypeCustomPassword | src/pages/Game.tsx:163-185 | typing the custom password back solves the round. The keypad is reshuffled, a new random password drawn and 3 attempts remain |
| Scenarios.TwoWrongEntries | src/pages/Game.tsx:186-209 | two wrong entries report 2 and then 1 remaining attempts, no replay scheduled |
| Scenarios.ExhaustAttempts | src/pages/Game.tsx:186-209 | with one attempt, a wrong entry leaves 0 attempts and the keypad then ignores clicks |
| Scenarios.ContinuePastZero | src/pages/Game.tsx:487-488 | listening again at 0 attempts re-activates the keypad, and a wrong entry reports -1 attempts |
| Scenarios.RestartTwiceWithCustom | src/pages/Game.tsx:229-232 | an applied custom password stays the secret across two new games; attempts reset each time |
| Scenarios.Announce | src/pages/Game.tsx:100-114 | speaking to the end stops listening and activates the keypad with an info message |
| Scenarios.PinCustom | src/pages/Game.tsx:54-71 | typing and applying a custom password of the right length makes it the secret |
| Scenarios.Type | src/pages/Game.tsx:159-160 | a digit that does not complete the entry is appended to it |
| Scenarios.EnterZeros | src/pages/Game.tsx:186-195 | typing "0000" against another secret is a wrong entry with one attempt fewer |

## Left out

- Message text, animations (`showSuccessAnimation`, `showFailureAnimation`), the settings panel toggle, navigation to the home page and the page markup are not modelled. Only the message type is.
- `playButtonSound` is not modelled: Web Audio output has no effect on the game state.
- The speech engine is not modelled: the utterance's text, language and rate, and `speechSynthesis.speak`. The availability check is the `speechSupported` parameter of `SpeakPassword`. The `onend` and `onerror` callbacks, and the `catch` path, are the methods `OnSpeechEnd` and `OnSpeechError`.
- `Math.random` is not modelled: every random value is a parameter (`draws`, `swaps`).
- The timers of a number click are not modelled as time: the entry clear and the replay are the methods `ClearInput` and `SpeakPassword`, which a caller runs when the timer fires. Stale closures in those timers affect only the spoken text and the message text.
- `dialPadOrder` is a ref in the source and a plain field here: writing it causes no render, and nothing in the model depends on rendering.
- Keypad.ShuffleDialPad: its contract ties the result to the `Shuffle` function. The layout property is the separate lemma `ShuffledIsLayout`.
- The home page (`src/pages/Home.tsx`) is not part of this model.
- Where the code behaves differently from what the game's description suggests, the model follows the code:
  - The password-length slider changes the length without drawing a new password. So the secret's length is not an invariant: an entry is evaluated only when its length equals the current length, and a longer entry can keep growing.
  - The attempts count can go below zero. The listen button is disabled only while listening or while the keypad is active, so listening again at 0 attempts re-activates the keypad (`Scenarios.ContinuePastZero`). There is no separate exhausted state.
  - `onend` and `startNewGame` change the message text but not its type.
  - Applying a custom password does not clear the custom field. So `startNewGame` keeps a custom secret for as long as the field is non-empty (`Scenarios.RestartTwiceWithCustom`).
