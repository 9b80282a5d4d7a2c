/**
 * The minigame module (PublishedModules/Psychokiller1888/Minigames): it
 * loads the supported games, remembers which one is selected, starts it on
 * request and forwards the game's intents to it while it is played.
 *
 * Loading a game (`importlib` plus the game's constructor) is the `load`
 * parameter of the constructor: the intents of the game, or None when
 * loading raised. A game's own reaction to a message, and the host calls
 * its `start` makes, are outcomes of the handlers.
 */
module Minigames {
  import opened Wrappers
  import opened Dialog
  import opened MiniGame

  const SupportedGames := ["FlipACoin", "RockPaperScissors", "RollADice", "GuessTheNumber"]
  const AnswerYesOrNoIntent := "AnswerYesOrNo"
  const AnswerMiniGameIntent := "AnswerMiniGame"

  /** What a handler ends with. */
  datatype Outcome =
    | Declined                 // returns False
    | Forwarded(intent: string)// passed on to the selected game's onMessage
    | Replied(action: Action)  // endDialog / continueDialog
    | StartedGame(name: string)// the named game became current and was started
    | Restarted                // the current game was started again
    | Crashed(error: string)   // the handler raises

  /** The intents registered for the loaded games, in the order of the games. */
  function RegisteredIntents(load: string -> Option<seq<string>>, games: seq<string>): seq<string>
  {
    if games == [] then []
    else
      var last := games[|games| - 1];
      RegisteredIntents(load, games[..|games| - 1]) + (if load(last).Some? then load(last).value else [])
  }

  /** The registered intents are exactly the intents of the games that loaded; failed games add none. */
  lemma {:induction false} RegisteredIntentsOfLoaded(load: string -> Option<seq<string>>, games: seq<string>, x: string)
    ensures x in RegisteredIntents(load, games) <==> exists g :: g in games && load(g).Some? && x in load(g).value
  {
    if games != [] {
      var init := games[..|games| - 1];
      var last := games[|games| - 1];
      RegisteredIntentsOfLoaded(load, init, x);
      assert games == init + [last];
      if x in RegisteredIntents(load, games) && x !in RegisteredIntents(load, init) {
        assert load(last).Some? && x in load(last).value;
      }
    }
  }

  class Minigames {
    /** The dialog states the games set (not defined in MiniGame.py; given here). */
    const playingState: string
    const playAgainState: string
    /** The games that loaded, by name. */
    const minigames: map<string, MiniGame>
    /** The intents registered with the host. */
    const intents: seq<string>
    /** The selected game, if any. */
    var current: MiniGame?

    /** `__init__`: load each supported game in turn, skipping the ones that fail. */
    constructor(load: string -> Option<seq<string>>, playingState: string, playAgainState: string)
      ensures this.playingState == playingState && this.playAgainState == playAgainState
      ensures minigames.Keys == set g | g in SupportedGames && load(g).Some?
      ensures forall g :: g in minigames ==> fresh(minigames[g]) && !minigames[g].started && minigames[g].intents == load(g).value
      ensures intents == RegisteredIntents(load, SupportedGames)
      ensures current == null
    {
      var games: map<string, MiniGame> := map[];
      var registered: seq<string> := [];
      var i := 0;
      while i < |SupportedGames|
        invariant 0 <= i <= |SupportedGames|
        invariant forall g :: g in games <==> g in SupportedGames[..i] && load(g).Some?
        invariant forall g :: g in games ==> fresh(games[g]) && !games[g].started && games[g].intents == load(g).value
        invariant registered == RegisteredIntents(load, SupportedGames[..i])
      {
        var game := SupportedGames[i];
        assert SupportedGames[..i + 1] == SupportedGames[..i] + [game];
        var loaded := load(game);
        if loaded.Some? {
          var minigame := new MiniGame(loaded.value);
          games := games[game := minigame];
          registered := registered + loaded.value;
        }
        i := i + 1;
      }
      assert SupportedGames[..i] == SupportedGames;
      assert games.Keys == set g | g in SupportedGames && load(g).Some?;
      this.playingState := playingState;
      this.playAgainState := playAgainState;
      minigames := games;
      intents := registered;
      current := null;
    }

    /**
     * `onSessionTimeout` and `onUserCancel`: the selected game stops, stays
     * selected, and no other game changes.
     */
    method OnSessionEnd()
      modifies current
      ensures current != null ==> !current.started
    {
      if current != null {
        current.SetStarted(false);
      }
    }

    /** `minigameIntent`: outside the playing state it returns False; inside, the game gets the intent. */
    method MinigameIntent(state: string, intent: string) returns (outcome: Outcome)
      ensures state != playingState ==> outcome == Declined
      ensures state == playingState ==> outcome == if current == null then Crashed("AttributeError") else Forwarded(intent)
    {
      if state != playingState {
        return Declined;
      }
      if current == null {
        return Crashed("AttributeError");
      }
      return Forwarded(intent);
    }

    /**
     * `answerAnotherGame` as written: no ends the dialog, yes outside the
     * play-again state asks which game, and yes in the play-again state calls
     * the game's `start` without the session it requires, which raises.
     */
    method AnswerAnotherGame(yes: bool, state: string) returns (outcome: Outcome)
      ensures !yes ==> outcome == Replied(End("endPlaying", []))
      ensures yes && state != playAgainState ==> outcome == Replied(Ask("whichGame", [AnswerMiniGameIntent], None, None))
      ensures yes && state == playAgainState ==> outcome.Crashed?
    {
      if !yes {
        return Replied(End("endPlaying", []));
      } else if state != playAgainState {
        return Replied(Ask("whichGame", [AnswerMiniGameIntent], None, None));
      }
      return Crashed(if current == null then "AttributeError" else "TypeError");
    }

    /** `answerAnotherGame` as evidently intended: yes in the play-again state starts the current game again. */
    method AnswerAnotherGameIntended(yes: bool, state: string) returns (outcome: Outcome)
      modifies current
      ensures !yes ==> outcome == Replied(End("endPlaying", [])) && (current != null ==> current.started == old(current.started))
      ensures yes && state != playAgainState ==>
        outcome == Replied(Ask("whichGame", [AnswerMiniGameIntent], None, None)) && (current != null ==> current.started == old(current.started))
      ensures yes && state == playAgainState ==>
        if current == null then outcome == Crashed("AttributeError") else outcome == Restarted && current.started
    {
      if !yes {
        return Replied(End("endPlaying", []));
      } else if state != playAgainState {
        return Replied(Ask("whichGame", [AnswerMiniGameIntent], None, None));
      }
      if current == null {
        return Crashed("AttributeError");
      }
      current.Start();
      return Restarted;
    }

    /**
     * `playGameIntent`: a started game gets the message; otherwise the game
     * named by the WhichGame slot is selected and started, after a reprompt
     * when the slot is missing or names an unsupported game. A supported game
     * that did not load raises KeyError.
     */
    method PlayGameIntent(intent: string, slots: map<string, string>) returns (outcome: Outcome)
      modifies this, minigames.Values
      ensures old(current) != null && old(current.started) ==>
        outcome == Forwarded(intent) && current == old(current)
      ensures !(old(current) != null && old(current.started)) ==>
        if "WhichGame" !in slots then
          outcome == Replied(Ask("whichGame", [AnswerMiniGameIntent], None, None)) && current == old(current)
        else if slots["WhichGame"] !in SupportedGames then
          outcome == Replied(Ask("unknownGame", [AnswerMiniGameIntent, AnswerYesOrNoIntent], Some("answeringPlayAnotherGamer"), None))
          && current == old(current)
        else if slots["WhichGame"] !in minigames then
          outcome == Crashed("KeyError") && current == old(current)
        else
          outcome == StartedGame(slots["WhichGame"]) && current == minigames[slots["WhichGame"]] && current.started
      ensures forall g :: g in minigames && (outcome.StartedGame? ==> minigames[g] != current) ==>
        minigames[g].started == old(minigames[g].started)
    {
      if current != null && current.started {
        return Forwarded(intent);
      }
      if "WhichGame" !in slots {
        return Replied(Ask("whichGame", [AnswerMiniGameIntent], None, None));
      } else if slots["WhichGame"] !in SupportedGames {
        return Replied(Ask("unknownGame", [AnswerMiniGameIntent, AnswerYesOrNoIntent], Some("answeringPlayAnotherGamer"), None));
      }
      var game := slots["WhichGame"];
      if game !in minigames {
        return Crashed("KeyError");
      }
      current := minigames[game];
      current.Start();
      return StartedGame(game);
    }
  }
}
