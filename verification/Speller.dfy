/**
 * The speller module (PublishedModules/Psychokiller1888/Speller): the word
 * of the RandomWord slot is spelled letter by letter, with a short SSML
 * pause between two letters.
 */
module Speller {
  import opened Wrappers
  import opened Text
  import opened Dialog

  /** The pause spoken between two letters. */
  const Break := "<break time=\"160ms\"/>"

  const UnknownWord := "unknownword"

  /** `session.slotValue('RandomWord') or 'unknownword'`: a missing or empty slot counts as not understood. */
  function WordOf(slot: Option<string>): (w: string)
    ensures w != ""
    ensures slot.Some? && slot.value != "" ==> w == slot.value
    ensures slot.None? || slot.value == "" ==> w == UnknownWord
  {
    if slot.Some? && slot.value != "" then slot.value else UnknownWord
  }

  /** `list(word)`: each character as a string of its own. */
  function Letters(word: string): (r: seq<string>)
    ensures |r| == |word| && forall i :: 0 <= i < |word| ==> r[i] == [word[i]]
  {
    seq(|word|, i requires 0 <= i < |word| => [word[i]])
  }

  /** The spelled word: its letters joined by the pause. */
  function Spell(word: string): string
  {
    Join(Letters(word), Break)
  }

  /** `s.replace(pat, '')`: every occurrence of the pattern, scanning left to right, removed. */
  function RemoveAll(s: string, pat: string): string
    requires |pat| > 0
    decreases |s|
  {
    if |s| == 0 then s
    else if |pat| <= |s| && s[..|pat|] == pat then RemoveAll(s[|pat|..], pat)
    else [s[0]] + RemoveAll(s[1..], pat)
  }

  lemma SumLengthsLetters(word: string)
    ensures SumLengths(Letters(word)) == |word|
  {
    if word != [] {
      assert Letters(word)[1..] == Letters(word[1..]);
      SumLengthsLetters(word[1..]);
    }
  }

  /** A word of n >= 1 characters is spelled in n + 21 * (n - 1) characters. */
  lemma SpellLength(word: string)
    requires |word| >= 1
    ensures |Break| == 21
    ensures |Spell(word)| == |word| + 21 * (|word| - 1)
  {
    JoinLength(Letters(word), Break);
    SumLengthsLetters(word);
  }

  /** A one-character word is spelled as itself. */
  lemma SpellOneLetter(c: char)
    ensures Spell([c]) == [c]
  {
  }

  /** Removing the pauses from the spelled word gives the word back. */
  lemma {:induction false} SpellRoundTrip(word: string)
    ensures RemoveAll(Spell(word), Break) == word
    decreases |word|
  {
    if |word| == 1 {
      assert Spell(word) == word;
      assert RemoveAll(word[1..], Break) == [];
    } else if |word| > 1 {
      var rest := Spell(word[1..]);
      assert Letters(word)[1..] == Letters(word[1..]);
      var s := Spell(word);
      assert s == [word[0]] + Break + rest;
      assert s[1] == '<' && Break[1] == 'b';
      assert s[1..] == Break + rest;
      assert (Break + rest)[..|Break|] == Break && (Break + rest)[|Break|..] == rest;
      SpellRoundTrip(word[1..]);
      assert [word[0]] + word[1..] == word;
    }
  }

  /**
   * The layout of the spelled word: 22 characters per letter but the last,
   * the letter at each multiple of 22 and the pause in between.
   */
  lemma {:induction false} SpellLayout(word: string)
    ensures |Break| == 21
    ensures |word| >= 1 ==> |Spell(word)| == 22 * |word| - 21
    ensures forall j :: 0 <= j < |Spell(word)| ==>
      Spell(word)[j] == if j % 22 == 0 then word[j / 22] else Break[j % 22 - 1]
    decreases |word|
  {
    if |word| == 1 {
      assert Spell(word) == word;
    } else if |word| > 1 {
      var rest := Spell(word[1..]);
      assert Letters(word)[1..] == Letters(word[1..]);
      var s := Spell(word);
      assert s == [word[0]] + Break + rest;
      SpellLayout(word[1..]);
      forall j | 0 <= j < |s|
        ensures s[j] == if j % 22 == 0 then word[j / 22] else Break[j % 22 - 1]
      {
        if j >= 22 {
          var k := j - 22;
          assert s[j] == rest[k];
          assert k % 22 == j % 22 && k / 22 == j / 22 - 1;
          assert word[1..][k / 22] == word[j / 22];
        }
      }
    }
  }

  /** `spellIntent`: an unknown word reprompts in state answerWord; any other is said together with its spelling. */
  function SpellIntent(slot: Option<string>): (a: Action)
    ensures a.Ask? <==> WordOf(slot) == UnknownWord
    ensures a.Ask? ==> a == Ask("notUnderstood", ["UserRandomAnswer"], Some("answerWord"), None)
    ensures a.End? ==>
      (a.talk == "isSpelled" && |a.args| == 2 && a.args[0] == WordOf(slot) && RemoveAll(a.args[1], Break) == a.args[0])
    ensures a.End? ==> a.args[1] == Spell(WordOf(slot))
    ensures a.End? ==> |a.args[1]| == 22 * |a.args[0]| - 21
    ensures a.End? ==> forall j :: 0 <= j < |a.args[1]| ==>
      a.args[1][j] == if j % 22 == 0 then a.args[0][j / 22] else Break[j % 22 - 1]
  {
    var word := WordOf(slot);
    if word == UnknownWord then Ask("notUnderstood", ["UserRandomAnswer"], Some("answerWord"), None)
    else
      SpellRoundTrip(word);
      SpellLayout(word);
      End("isSpelled", [word, Spell(word)])
  }
}
