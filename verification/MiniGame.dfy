/**
 * The base of every minigame (PublishedModules/Psychokiller1888/Minigames/
 * model/MiniGame.py): a game knows its intents and whether it is started.
 */
module MiniGame {

  class MiniGame {
    /** The intents the game listens for while it is played. */
    const intents: seq<string>
    var started: bool

    /** A new game is not started. */
    constructor(intents: seq<string>)
      ensures this.intents == intents && !started
    {
      this.intents := intents;
      started := false;
    }

    /** The `started` property. */
    function Started(): (r: bool)
      reads this
      ensures r <==> started
    {
      started
    }

    /** The `started` setter: the flag takes the given value and nothing else changes. */
    method SetStarted(value: bool)
      modifies this
      ensures Started() == value
    {
      started := value;
    }

    /** `start`: the game is started, whatever it was before. */
    method Start()
      modifies this
      ensures Started()
    {
      started := true;
    }
  }
}
