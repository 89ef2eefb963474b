/**
 * Whole games played on a freshly mounted page, handler by handler.
 *
 * Each method mounts a new session, drives it through the handlers the
 * page wires to its controls, and states what the player sees at the
 * end. A custom password makes the secret known in advance.
 */
module Scenarios {
  import opened Digits
  import opened FisherYates
  import opened Keypad
  import opened Game

  /** A page with the custom password `custom` applied, announced, and the keypad active. */
  method ReadyWithCustom(draws: seq<nat>, swaps: seq<nat>, custom: string) returns (s: Session)
    requires ValidDraws(draws, 4) && FullSwaps(swaps)
    requires |custom| == 4 && AllDigits(custom)
    ensures fresh(s) && s.Valid()
    ensures s.generatedPassword == Split(custom) && s.userInput == []
    ensures s.isGameActive && !s.isListening && s.passwordLength == 4
    ensures s.remainingAttempts == 3 && s.maxAttempts == 3 && !s.autoReplayOnError
    ensures s.shuffleFrequency == EveryRound
  {
    s := new Session(draws, swaps);
    PinCustom(s, custom);
    Announce(s);
  }

  /**
   * Typing the custom password back solves the round: attempts are
   * restored, the keypad is reshuffled ('every round' is the default) and a
   * new random password replaces the custom one.
   */
  method TypeCustomPassword(draws: seq<nat>, swaps: seq<nat>, next: seq<nat>, reshuffle: seq<nat>)
    returns (outcome: ClickOutcome, after: SessionState)
    requires ValidDraws(draws, 4) && FullSwaps(swaps) && ValidDraws(next, 4) && FullSwaps(reshuffle)
    ensures outcome == Solved
    ensures after.remainingAttempts == 3 && after.messageType == Success && !after.isGameActive
    ensures after.dialPadOrder == Template(Shuffle(Numbers, reshuffle))
    ensures after.generatedPassword == PasswordOf(next) && after.customPassword == ""
  {
    var s := ReadyWithCustom(draws, swaps, "1234");
    Type(s, "1", next, reshuffle);
    Type(s, "2", next, reshuffle);
    assert s.userInput == ["1", "2"];
    Type(s, "3", next, reshuffle);
    assert s.userInput == ["1", "2", "3"];
    assert Split("1234") == ["1", "2", "3", "4"];
    outcome := s.HandleNumberClick("4", next, reshuffle);
    after := s.State();
  }

  /** Two wrong entries in a row count the attempts down 3, 2, 1. */
  method TwoWrongEntries(draws: seq<nat>, swaps: seq<nat>, next: seq<nat>, reshuffle: seq<nat>)
    returns (first: ClickOutcome, second: ClickOutcome)
    requires ValidDraws(draws, 4) && FullSwaps(swaps) && ValidDraws(next, 4) && FullSwaps(reshuffle)
    ensures first == Wrong(2, false) && second == Wrong(1, false)
  {
    var s := ReadyWithCustom(draws, swaps, "1234");
    assert s.generatedPassword[0] == "1";
    first := EnterZeros(s, next, reshuffle);
    s.ClearInput();
    Announce(s);
    second := EnterZeros(s, next, reshuffle);
  }

  /**
   * With one attempt, a wrong entry leaves 0 attempts and an inactive
   * keypad that ignores clicks.
   */
  method ExhaustAttempts(draws: seq<nat>, swaps: seq<nat>, next: seq<nat>, reshuffle: seq<nat>)
    returns (s: Session, first: ClickOutcome, ignored: ClickOutcome)
    requires ValidDraws(draws, 4) && FullSwaps(swaps) && ValidDraws(next, 4) && FullSwaps(reshuffle)
    ensures fresh(s) && s.Valid() && s.passwordLength == 4
    ensures first == Wrong(0, false) && ignored == Ignored
    ensures s.remainingAttempts == 0 && !s.isGameActive && s.generatedPassword == Split("5678")
  {
    s := new Session(draws, swaps);
    s.SetMaxAttempts(1);
    s.StartNewGame(draws, swaps);
    PinCustom(s, "5678");
    Announce(s);
    assert s.generatedPassword[0] == "5";
    first := EnterZeros(s, next, reshuffle);
    ignored := s.HandleNumberClick("1", next, reshuffle);
  }

  /**
   * The listen button is not disabled at 0 attempts, so listening again
   * re-activates the keypad, and a second wrong entry takes the count of
   * remaining attempts to -1.
   */
  method ContinuePastZero(draws: seq<nat>, swaps: seq<nat>, next: seq<nat>, reshuffle: seq<nat>)
    returns (second: ClickOutcome)
    requires ValidDraws(draws, 4) && FullSwaps(swaps) && ValidDraws(next, 4) && FullSwaps(reshuffle)
    ensures second == Wrong(-1, false)
  {
    var s, first, ignored := ExhaustAttempts(draws, swaps, next, reshuffle);
    s.ClearInput();
    Announce(s);
    assert s.generatedPassword[0] == "5";
    second := EnterZeros(s, next, reshuffle);
  }

  /**
   * Starting a new game twice in a row leaves the entry empty and the
   * attempts at the maximum both times; a custom password that was applied
   * stays the secret, because the custom field is not cleared by applying it.
   */
  method RestartTwiceWithCustom(draws: seq<nat>, swaps: seq<nat>, next: seq<nat>, reshuffle: seq<nat>)
    returns (afterFirst: SessionState, afterSecond: SessionState)
    requires ValidDraws(draws, 4) && FullSwaps(swaps) && ValidDraws(next, 4) && FullSwaps(reshuffle)
    ensures afterFirst.userInput == [] && afterFirst.remainingAttempts == afterFirst.maxAttempts == 3
    ensures afterSecond.userInput == [] && afterSecond.remainingAttempts == afterSecond.maxAttempts == 3
    ensures afterFirst.generatedPassword == afterSecond.generatedPassword == ["4", "2", "4", "2"]
    ensures !afterFirst.isGameActive && !afterSecond.isGameActive
  {
    var s := new Session(draws, swaps);
    PinCustom(s, "4242");
    assert Split("4242") == ["4", "2", "4", "2"];
    s.StartNewGame(next, reshuffle);
    afterFirst := s.State();
    s.StartNewGame(next, reshuffle);
    afterSecond := s.State();
  }

  /** Listening to the password to the end turns the keypad on. */
  method Announce(s: Session)
    requires s.Valid()
    modifies s
    ensures s.Valid()
    ensures s.State() == old(s.State()).(isListening := false, isGameActive := true, messageType := Info)
  {
    s.SpeakPassword(true);
    s.OnSpeechEnd();
  }

  /** Typing a custom password of the right length and applying it makes it the secret. */
  method PinCustom(s: Session, custom: string)
    requires s.Valid() && |custom| == s.passwordLength && AllDigits(custom)
    modifies s
    ensures s.Valid()
    ensures s.State() == old(s.State()).(customPassword := custom, generatedPassword := Split(custom))
  {
    s.HandleCustomPasswordChange(custom);
    var applied := s.ApplyCustomPassword();
  }

  /** A digit that does not complete the entry is appended to it. */
  method Type(s: Session, key: string, next: seq<nat>, reshuffle: seq<nat>)
    requires s.Valid() && s.isGameActive && IsDigitKey(key) && |s.userInput| + 1 < s.passwordLength
    requires ValidDraws(next, s.passwordLength) && FullSwaps(reshuffle)
    modifies s
    ensures s.Valid()
    ensures s.State() == old(s.State()).(userInput := old(s.userInput) + [key])
  {
    var o := s.HandleNumberClick(key, next, reshuffle);
  }

  /** Types "0000" on an active keypad with an empty entry. */
  method EnterZeros(s: Session, next: seq<nat>, reshuffle: seq<nat>) returns (outcome: ClickOutcome)
    requires s.Valid() && s.isGameActive && s.userInput == [] && s.passwordLength == 4
    requires s.generatedPassword != ["0", "0", "0", "0"]
    requires ValidDraws(next, 4) && FullSwaps(reshuffle)
    modifies s
    ensures s.Valid()
    ensures outcome == Wrong(old(s.remainingAttempts) - 1, s.autoReplayOnError && old(s.remainingAttempts) - 1 > 0)
    ensures s.State() == old(s.State()).(userInput := ["0", "0", "0", "0"], isGameActive := false,
      remainingAttempts := old(s.remainingAttempts) - 1, messageType := Error)
  {
    Type(s, "0", next, reshuffle);
    Type(s, "0", next, reshuffle);
    assert s.userInput == ["0", "0"];
    Type(s, "0", next, reshuffle);
    assert s.userInput == ["0", "0", "0"];
    outcome := s.HandleNumberClick("0", next, reshuffle);
    assert ["0", "0", "0"] + ["0"] == ["0", "0", "0", "0"];
  }
}
