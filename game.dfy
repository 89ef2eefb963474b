/**
 * The game session of the digit dictation game.
 *
 * The page speaks a secret digit password; once it has been spoken the
 * keypad becomes active and the player types the password back on a
 * (possibly shuffled) 12-slot keypad, with a limited number of attempts.
 *
 * `Session` has one field per piece of component state and one method per
 * handler. A handler reads the state when it starts and its writes are all
 * visible when it returns, as with React's state setters. Randomness is a
 * parameter: `draws` are the digits `Math.floor(Math.random() * 10)` of a
 * new password, `swaps` the indices drawn by the keypad shuffle. The two
 * delayed actions of a number click (clearing the entry, replaying the
 * password) are separate methods, run by whoever models the timer.
 */
module Game {
  import opened Digits
  import opened FisherYates
  import opened Keypad

  /** The values of the shuffle-frequency select: 'every game', 'every round', 'never'. */
  datatype ShuffleFrequency = EveryGame | EveryRound | Never

  /** The classification of the status message; the message text is not modelled. */
  datatype MessageType = Info | Success | Error

  /** What a number click did, and what it scheduled. */
  datatype ClickOutcome =
    | Ignored
    | Entered
    | Solved
    | Wrong(remaining: int, replayScheduled: bool)

  /** The whole state of a session, as one value. */
  datatype SessionState = SessionState(
    passwordLength: int,
    customPassword: string,
    generatedPassword: seq<string>,
    userInput: seq<string>,
    isListening: bool,
    isGameActive: bool,
    shuffleFrequency: ShuffleFrequency,
    autoReplayOnError: bool,
    maxAttempts: int,
    initialMaxAttempts: int,
    remainingAttempts: int,
    messageType: MessageType,
    dialPadOrder: seq<string>)

  /** One valid draw of `Math.floor(Math.random() * 10)` per password digit. */
  predicate ValidDraws(draws: seq<nat>, length: int) {
    |draws| == length && forall k :: 0 <= k < |draws| ==> draws[k] < 10
  }

  /** The password the draws spell. */
  function PasswordOf(draws: seq<nat>): (password: seq<string>)
    requires ValidDraws(draws, |draws|)
    ensures |password| == |draws| && AllDigitKeys(password)
  {
    seq(|draws|, k requires 0 <= k < |draws| => DigitKey(draws[k]))
  }

  /**
   * The password-building loop of generateRandomPassword: one digit per
   * position, pushed in order.
   */
  method RandomPassword(length: int, draws: seq<nat>) returns (password: seq<string>)
    requires ValidDraws(draws, length)
    ensures password == PasswordOf(draws)
    ensures |password| == length && AllDigitKeys(password)
  {
    password := [];
    for i := 0 to length
      invariant password == PasswordOf(draws[..i])
    {
      assert draws[..i + 1] == draws[..i] + [draws[i]];
      password := password + [DigitKey(draws[i])];
    }
    assert draws[..length] == draws;
  }

  /** Every password of digit keys is produced by some draws, and by only one. */
  lemma EveryPasswordReachable(password: seq<string>)
    requires AllDigitKeys(password)
    ensures exists draws :: ValidDraws(draws, |password|) && PasswordOf(draws) == password
    ensures forall draws :: ValidDraws(draws, |password|) && PasswordOf(draws) == password ==>
      forall k :: 0 <= k < |draws| ==> draws[k] == password[k][0] as int - '0' as int
  {
    var draws: seq<nat> := seq(|password|, k requires 0 <= k < |password| => password[k][0] as int - '0' as int);
    forall k | 0 <= k < |password| ensures DigitKey(draws[k]) == password[k] {
      assert DigitKey(draws[k])[0] == password[k][0];
    }
    assert PasswordOf(draws) == password;
  }

  /**
   * The comparison of a complete entry with the secret: both are joined
   * into strings and the strings compared. For digit keys this is the
   * same as comparing the keys one by one.
   */
  method SameDigits(entry: seq<string>, secret: seq<string>) returns (same: bool)
    requires AllDigitKeys(entry) && AllDigitKeys(secret)
    ensures same <==> entry == secret
  {
    JoinDigitKeysInjective(entry, secret);
    same := Join(entry) == Join(secret);
  }

  class Session {
    var passwordLength: int
    var customPassword: string
    var generatedPassword: seq<string>
    var userInput: seq<string>
    var isListening: bool
    var isGameActive: bool
    var shuffleFrequency: ShuffleFrequency
    var autoReplayOnError: bool
    var maxAttempts: int
    var initialMaxAttempts: int
    var remainingAttempts: int
    var messageType: MessageType
    var dialPadOrder: seq<string>
    /** The draws of the shuffle that produced the current keypad. */
    ghost var padSwaps: seq<nat>

    /** The state as one value. */
    function State(): SessionState
      reads this
    {
      SessionState(passwordLength, customPassword, generatedPassword, userInput,
        isListening, isGameActive, shuffleFrequency, autoReplayOnError,
        maxAttempts, initialMaxAttempts, remainingAttempts, messageType, dialPadOrder)
    }

    /**
     * What every handler preserves: the sliders' ranges, digit-only
     * passwords and entry, a keypad that is the template filled with some
     * outcome of the shuffle, and the canonical keypad whenever shuffling
     * is off.
     */
    ghost predicate Valid()
      reads this
    {
      3 <= passwordLength <= 8 && 1 <= maxAttempts <= 10
      && AllDigits(customPassword)
      && AllDigitKeys(generatedPassword)
      && AllDigitKeys(userInput)
      && KeypadValid()
    }

    /**
     * The keypad part of Valid: the template filled with the outcome of the
     * recorded shuffle, and the shuffle that moves nothing whenever
     * shuffling is off.
     */
    ghost predicate KeypadValid()
      reads this`dialPadOrder, this`padSwaps, this`shuffleFrequency
    {
      FullSwaps(padSwaps) && dialPadOrder == Template(Shuffle(Numbers, padSwaps))
      && (shuffleFrequency == Never ==> padSwaps == NoSwaps(10))
    }

    /**
     * The keypad always has twelve slots, blanks exactly at 9 and 11, and
     * each of the ten digits exactly once; with shuffling off it is the
     * canonical keypad.
     */
    lemma KeypadIsLayout()
      requires Valid()
      ensures shuffleFrequency == Never ==> dialPadOrder == CanonicalLayout
      ensures IsLayout(dialPadOrder)
      ensures forall k :: 0 <= k < 12 ==> (dialPadOrder[k] == Blank <==> k == 9 || k == 11)
      ensures forall key :: key in Numbers ==> multiset(dialPadOrder)[key] == 1
    {
      CanonicalIsUnshuffled();
      ShuffledIsLayout(padSwaps);
      LayoutSlots(dialPadOrder);
      forall key | key in Numbers ensures multiset(dialPadOrder)[key] == 1 {
        LayoutHoldsEachDigitOnce(dialPadOrder, key);
      }
    }

    /**
     * Mounting the page: the initial state of every field, then the
     * shuffle-policy effect, which runs once on mount.
     */
    constructor (draws: seq<nat>, swaps: seq<nat>)
      requires ValidDraws(draws, 4) && FullSwaps(swaps)
      ensures Valid()
      ensures State() == SessionState(4, "", PasswordOf(draws), [], false, false, EveryRound, false,
        3, 3, 3, Info, Template(Shuffle(Numbers, swaps)))
    {
      passwordLength := 4;
      customPassword := "";
      generatedPassword := [];
      userInput := [];
      isListening := false;
      shuffleFrequency := EveryRound;
      isGameActive := false;
      messageType := Info;
      autoReplayOnError := false;
      maxAttempts := 3;
      initialMaxAttempts := 3;
      remainingAttempts := 3;
      dialPadOrder := CanonicalLayout;
      padSwaps := NoSwaps(10);
      new;
      CanonicalIsUnshuffled();
      ApplyShufflePolicy(draws, swaps);
    }

    /**
     * generateRandomPassword: a fresh password of passwordLength digits
     * replaces the secret, and the custom password is cleared.
     */
    method GenerateRandomPassword(draws: seq<nat>)
      requires ValidDraws(draws, passwordLength)
      modifies this
      ensures State() == old(State()).(generatedPassword := PasswordOf(draws), customPassword := "")
      ensures padSwaps == old(padSwaps)
      ensures AllDigitKeys(generatedPassword)
    {
      generatedPassword := RandomPassword(passwordLength, draws);
      customPassword := "";
    }

    /**
     * The settings link that draws a random password: generateRandomPassword,
     * then the custom password is cleared once more.
     */
    method RegeneratePassword(draws: seq<nat>)
      requires Valid() && ValidDraws(draws, passwordLength)
      modifies this
      ensures Valid()
      ensures State() == old(State()).(generatedPassword := PasswordOf(draws), customPassword := "")
    {
      GenerateRandomPassword(draws);
      customPassword := "";
    }

    /**
     * The effect on shuffleFrequency: reshuffle the keypad unless the
     * policy is 'never', in which case restore the canonical keypad; then
     * generate a new password.
     */
    method ApplyShufflePolicy(draws: seq<nat>, swaps: seq<nat>)
      requires ValidDraws(draws, passwordLength) && FullSwaps(swaps)
      requires 3 <= passwordLength <= 8 && 1 <= maxAttempts <= 10
      requires AllDigitKeys(userInput) && AllDigitKeys(generatedPassword) && AllDigits(customPassword)
      modifies this
      ensures Valid()
      ensures State() == old(State()).(
        dialPadOrder := if shuffleFrequency != Never then Template(Shuffle(Numbers, swaps)) else CanonicalLayout,
        generatedPassword := PasswordOf(draws),
        customPassword := "")
    {
      if shuffleFrequency != Never {
        dialPadOrder := ShuffleDialPad(swaps);
        padSwaps := swaps;
      } else {
        dialPadOrder := CanonicalLayout;
        padSwaps := NoSwaps(10);
        CanonicalIsUnshuffled();
      }
      GenerateRandomPassword(draws);
    }

    /**
     * Choosing a shuffle frequency in the settings; the effect runs only
     * when the value actually changes.
     */
    method SetShuffleFrequency(frequency: ShuffleFrequency, draws: seq<nat>, swaps: seq<nat>)
      requires Valid() && ValidDraws(draws, passwordLength) && FullSwaps(swaps)
      modifies this
      ensures Valid()
      ensures frequency == old(shuffleFrequency) ==> State() == old(State())
      ensures frequency != old(shuffleFrequency) ==> State() == old(State()).(
        shuffleFrequency := frequency,
        dialPadOrder := if frequency != Never then Template(Shuffle(Numbers, swaps)) else CanonicalLayout,
        generatedPassword := PasswordOf(draws),
        customPassword := "")
    {
      if frequency != shuffleFrequency {
        shuffleFrequency := frequency;
        ApplyShufflePolicy(draws, swaps);
      }
    }

    /** The password-length slider (3 to 8); the current password is kept as it is. */
    method SetPasswordLength(length: int)
      requires Valid() && 3 <= length <= 8
      modifies this
      ensures Valid()
      ensures State() == old(State()).(passwordLength := length)
    {
      passwordLength := length;
    }

    /**
     * The maximum-attempts slider (1 to 10), disabled while the keypad is
     * active; the remaining count is kept as it is.
     */
    method SetMaxAttempts(attempts: int)
      requires Valid() && !isGameActive && 1 <= attempts <= 10
      modifies this
      ensures Valid()
      ensures State() == old(State()).(maxAttempts := attempts)
    {
      maxAttempts := attempts;
    }

    /** The automatic-replay switch. */
    method SetAutoReplayOnError(enabled: bool)
      requires Valid()
      modifies this
      ensures Valid()
      ensures State() == old(State()).(autoReplayOnError := enabled)
    {
      autoReplayOnError := enabled;
    }

    /**
     * handleCustomPasswordChange: keeps only the digits of what was typed,
     * and stores them only when they fit in passwordLength.
     */
    method HandleCustomPasswordChange(value: string)
      requires Valid()
      modifies this
      ensures Valid()
      ensures |FilterDigits(value)| <= passwordLength ==>
        State() == old(State()).(customPassword := FilterDigits(value))
      ensures |FilterDigits(value)| > passwordLength ==> State() == old(State())
    {
      var digits := FilterDigits(value);
      if |digits| <= passwordLength {
        customPassword := digits;
      }
    }

    /**
     * applyCustomPassword: a custom password of exactly passwordLength
     * digits becomes the secret; otherwise the message turns to an error
     * and the secret is kept.
     */
    method ApplyCustomPassword() returns (applied: bool)
      requires Valid()
      modifies this
      ensures Valid()
      ensures applied <==> |old(customPassword)| == old(passwordLength)
      ensures applied ==> State() == old(State()).(generatedPassword := Split(old(customPassword)))
      ensures applied ==> Join(generatedPassword) == customPassword && |generatedPassword| == passwordLength
      ensures !applied ==> State() == old(State()).(messageType := Error)
    {
      if |customPassword| == passwordLength {
        generatedPassword := Split(customPassword);
        JoinSplit(customPassword);
        return true;
      }
      messageType := Error;
      return false;
    }

    /**
     * The start of speakPassword: when speech synthesis is unsupported the
     * message turns to an error; otherwise the password is being spoken.
     */
    method SpeakPassword(speechSupported: bool)
      requires Valid()
      modifies this
      ensures Valid()
      ensures !speechSupported ==> State() == old(State()).(messageType := Error)
      ensures speechSupported ==> State() == old(State()).(isListening := true, messageType := Info)
    {
      if !speechSupported {
        messageType := Error;
        return;
      }
      isListening := true;
      messageType := Info;
    }

    /** The utterance finished: the keypad becomes active. */
    method OnSpeechEnd()
      requires Valid()
      modifies this
      ensures Valid()
      ensures State() == old(State()).(isListening := false, isGameActive := true)
    {
      isListening := false;
      isGameActive := true;
    }

    /**
     * The utterance failed, or could not be set up: listening stops with an
     * error, and the keypad stays as it was.
     */
    method OnSpeechError()
      requires Valid()
      modifies this
      ensures Valid()
      ensures State() == old(State()).(isListening := false, messageType := Error)
    {
      isListening := false;
      messageType := Error;
    }

    /**
     * handleNumberClick. An inactive keypad or a blank key does nothing.
     * Otherwise the digit is appended, and when the entry reaches
     * passwordLength it is evaluated (EvaluateEntry).
     */
    method HandleNumberClick(number: string, draws: seq<nat>, swaps: seq<nat>) returns (outcome: ClickOutcome)
      requires Valid() && (number == Blank || IsDigitKey(number))
      requires ValidDraws(draws, passwordLength) && FullSwaps(swaps)
      modifies this
      ensures Valid()
      ensures !old(isGameActive) || number == Blank ==>
        outcome == Ignored && State() == old(State())
      ensures old(isGameActive) && number != Blank && |old(userInput)| + 1 != passwordLength ==>
        outcome == Entered && State() == old(State()).(userInput := old(userInput) + [number])
      ensures old(isGameActive) && number != Blank && |old(userInput)| + 1 == passwordLength ==>
        (outcome == Solved || outcome.Wrong?)
        && (outcome == Solved <==> old(userInput) + [number] == old(generatedPassword))
      ensures outcome == Solved ==> State() == old(State()).(
        userInput := old(userInput) + [number],
        isGameActive := false,
        messageType := Success,
        dialPadOrder := if shuffleFrequency == EveryGame || shuffleFrequency == EveryRound
                        then Template(Shuffle(Numbers, swaps)) else old(dialPadOrder),
        generatedPassword := PasswordOf(draws),
        customPassword := "",
        remainingAttempts := maxAttempts)
      ensures outcome.Wrong? ==>
        outcome == Wrong(old(remainingAttempts) - 1, autoReplayOnError && old(remainingAttempts) - 1 > 0)
        && State() == old(State()).(
          userInput := old(userInput) + [number],
          isGameActive := false,
          remainingAttempts := old(remainingAttempts) - 1,
          messageType := Error)
    {
      if !isGameActive || number == Blank {
        return Ignored;
      }
      var newInput := userInput + [number];
      userInput := newInput;
      if |newInput| != passwordLength {
        return Entered;
      }
      outcome := EvaluateEntry(draws, swaps);
    }

    /**
     * The evaluation of a complete entry in handleNumberClick. The entry is
     * compared with the secret by joining both into strings; a match
     * succeeds (EntrySolved), anything else fails (EntryWrong).
     */
    method EvaluateEntry(draws: seq<nat>, swaps: seq<nat>) returns (outcome: ClickOutcome)
      requires Valid() && |userInput| == passwordLength
      requires ValidDraws(draws, passwordLength) && FullSwaps(swaps)
      modifies this
      ensures Valid()
      ensures outcome == Solved || outcome.Wrong?
      ensures outcome == Solved <==> old(userInput) == old(generatedPassword)
      ensures outcome == Solved ==> State() == old(State()).(
        isGameActive := false,
        messageType := Success,
        dialPadOrder := if shuffleFrequency == EveryGame || shuffleFrequency == EveryRound
                        then Template(Shuffle(Numbers, swaps)) else old(dialPadOrder),
        generatedPassword := PasswordOf(draws),
        customPassword := "",
        remainingAttempts := maxAttempts)
      ensures outcome.Wrong? ==>
        outcome == Wrong(old(remainingAttempts) - 1, autoReplayOnError && old(remainingAttempts) - 1 > 0)
        && State() == old(State()).(
          isGameActive := false,
          remainingAttempts := old(remainingAttempts) - 1,
          messageType := Error)
    {
      var isSuccess := SameDigits(userInput, generatedPassword);
      if isSuccess {
        EntrySolved(draws, swaps);
        outcome := Solved;
      } else {
        outcome := EntryWrong();
      }
    }

    /**
     * A complete entry that matches: the keypad turns off, the message
     * reports success, the keypad is reshuffled unless shuffling is off, a
     * new password is generated and the attempts are restored.
     */
    method EntrySolved(draws: seq<nat>, swaps: seq<nat>)
      requires Valid() && ValidDraws(draws, passwordLength) && FullSwaps(swaps)
      modifies this
      ensures Valid()
      ensures State() == old(State()).(
        isGameActive := false,
        messageType := Success,
        dialPadOrder := if shuffleFrequency == EveryGame || shuffleFrequency == EveryRound
                        then Template(Shuffle(Numbers, swaps)) else old(dialPadOrder),
        generatedPassword := PasswordOf(draws),
        customPassword := "",
        remainingAttempts := maxAttempts)
    {
      isGameActive, messageType := false, Success;
      ReshuffleIfEnabled(swaps);
      GenerateRandomPassword(draws);
      RestoreRemaining();
    }

    /**
     * A complete entry that does not match: one attempt is used up, the
     * message reports an error, and an automatic replay is scheduled when
     * it is enabled and attempts remain. The count is not kept from going
     * below zero.
     */
    method EntryWrong() returns (outcome: ClickOutcome)
      requires Valid()
      modifies this
      ensures Valid()
      ensures outcome == Wrong(old(remainingAttempts) - 1, autoReplayOnError && old(remainingAttempts) - 1 > 0)
      ensures State() == old(State()).(
        isGameActive := false,
        remainingAttempts := old(remainingAttempts) - 1,
        messageType := Error)
    {
      isGameActive := false;
      var newRemainingAttempts := remainingAttempts - 1;
      remainingAttempts := newRemainingAttempts;
      messageType := Error;
      var replay := autoReplayOnError && newRemainingAttempts > 0;
      if newRemainingAttempts <= 0 {
        isGameActive := false;
      }
      outcome := Wrong(newRemainingAttempts, replay);
    }

    /**
     * The reshuffle shared by a solved entry and startNewGame: the keypad
     * is reshuffled when the policy is 'every game' or 'every round'.
     */
    method ReshuffleIfEnabled(swaps: seq<nat>)
      requires KeypadValid() && FullSwaps(swaps)
      modifies this
      ensures KeypadValid()
      ensures State() == old(State()).(dialPadOrder := if shuffleFrequency == EveryGame || shuffleFrequency == EveryRound
                              then Template(Shuffle(Numbers, swaps)) else old(dialPadOrder))
    {
      if shuffleFrequency == EveryGame || shuffleFrequency == EveryRound {
        dialPadOrder := ShuffleDialPad(swaps);
        padSwaps := swaps;
      }
    }

    /** The delayed clear scheduled by a complete entry. */
    method ClearInput()
      requires Valid()
      modifies this
      ensures Valid()
      ensures State() == old(State()).(userInput := [])
    {
      userInput := [];
    }

    /** The attempts step of startNewGame: the current maximum becomes the count. */
    method RestoreAttempts()
      modifies this
      ensures State() == old(State()).(initialMaxAttempts := maxAttempts, remainingAttempts := maxAttempts)
      ensures padSwaps == old(padSwaps)
    {
      initialMaxAttempts := maxAttempts;
      remainingAttempts := maxAttempts;
    }

    /** The attempts step of a solved entry: the count returns to the maximum. */
    method RestoreRemaining()
      modifies this
      ensures State() == old(State()).(remainingAttempts := maxAttempts)
      ensures padSwaps == old(padSwaps)
    {
      remainingAttempts := maxAttempts;
    }

    /** The password step of startNewGame: a pending custom password is kept as the secret. */
    method GenerateUnlessCustom(draws: seq<nat>)
      requires ValidDraws(draws, passwordLength)
      modifies this
      ensures State() == old(State()).(
        generatedPassword := if old(customPassword) == "" then PasswordOf(draws) else old(generatedPassword))
      ensures padSwaps == old(padSwaps)
      ensures AllDigitKeys(old(generatedPassword)) ==> AllDigitKeys(generatedPassword)
    {
      if customPassword == "" {
        GenerateRandomPassword(draws);
      }
    }

    /**
     * startNewGame: empties the entry, turns the keypad off, reshuffles
     * unless shuffling is off, generates a new password only when no
     * custom password is pending, and restores the attempts.
     */
    method StartNewGame(draws: seq<nat>, swaps: seq<nat>)
      requires Valid() && ValidDraws(draws, passwordLength) && FullSwaps(swaps)
      modifies this
      ensures Valid()
      ensures State() == old(State()).(
        userInput := [],
        isGameActive := false,
        dialPadOrder := if shuffleFrequency == EveryGame || shuffleFrequency == EveryRound
                        then Template(Shuffle(Numbers, swaps)) else old(dialPadOrder),
        generatedPassword := if old(customPassword) == "" then PasswordOf(draws) else old(generatedPassword),
        initialMaxAttempts := maxAttempts,
        remainingAttempts := maxAttempts)
    {
      userInput, isGameActive := [], false;
      ReshuffleIfEnabled(swaps);
      GenerateUnlessCustom(draws);
      RestoreAttempts();
    }
  }
}
