/**
 * What a module handler asks the host runtime to do. The handlers of the
 * modelled modules end with a call to the host (`endDialog`, `continueDialog`,
 * `endTalk`); the model returns the call as a value instead.
 */
module Dialog {
  import opened Wrappers

  datatype Action =
      /** `endDialog` / `endTalk`: speak the talk string `talk` formatted with `args` and close the session. */
    | End(talk: string, args: seq<string>)
      /** `continueDialog`: speak `talk`, listen only for `intentFilter`, optionally in dialog state `state` or for slot `slot`. */
    | Ask(talk: string, intentFilter: seq<string>, state: Option<string>, slot: Option<string>)
}
