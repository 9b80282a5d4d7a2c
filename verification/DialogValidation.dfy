/**
 * The dialog-template checks of the validator (Tools/JsonValidator,
 * DialogValidation.py): slot consistency across a module's language files,
 * unknown slots and unknown slot values in utterances, duplicate
 * utterances, and the modules a module depends on.
 *
 * What the unseen `DialogTemplate` class extracts from a file is an input
 * (`Template`); `unidecode(x).lower()` is the parameter `norm`; the snips
 * builtin entities are the parameter `builtins`.
 */
module DialogValidation {
  import opened Wrappers
  import opened Validation

  /** One entry of a slot's `values`: its `value` and, when the key is present, its `synonyms`. */
  datatype SlotValue = SlotValue(value: string, synonyms: Option<seq<string>>)

  /** A slot definition with its `values`, `useSynonyms` and `automaticallyExtensible`. */
  datatype SlotDef = SlotDef(values: seq<SlotValue>, useSynonyms: bool, automaticallyExtensible: bool)

  /** intent -> slot -> values, or intent -> short utterance -> utterances, in file order. */
  type Grouping = seq<(string, seq<(string, seq<string>)>)>

  /**
   * What DialogTemplate gives for one file: `slots` (name -> definition),
   * `utteranceSlots` (intent -> slot -> the values used in its utterances)
   * and `shortUtterances` (intent -> short form -> utterances), each in the
   * order of the file.
   */
  datatype Template = Template(slots: seq<(string, SlotDef)>, utteranceSlots: Grouping, shortUtterances: Grouping)

  /** What DialogTemplate gives for the empty dict of a file that did not parse. */
  const NoTemplate := Template([], [], [])

  type DialogFile = JsonFile<Template>

  function TemplateOf(file: DialogFile): Template
  {
    DataOf(file, NoTemplate)
  }

  // ------------------------------------------- searchMissingSlotValues

  function MapNorm(xs: seq<string>, norm: string -> string): (r: seq<string>)
    ensures |r| == |xs|
    ensures forall i :: 0 <= i < |xs| ==> r[i] == norm(xs[i])
  {
    if xs == [] then [] else [norm(xs[0])] + MapNorm(xs[1..], norm)
  }

  /** `allValues`: the entry's normalised value, then its synonyms when they are in use. */
  function Spellings(entry: SlotValue, useSynonyms: bool, norm: string -> string): seq<string>
  {
    [norm(entry.value)] + (if useSynonyms && entry.synonyms.Some? then MapNorm(entry.synonyms.value, norm) else [])
  }

  /** The test in the inner loop: `uValue in allValues or allSlots['automaticallyExtensible']`. */
  predicate MatchesEntry(value: string, entry: SlotValue, slot: SlotDef, norm: string -> string)
  {
    norm(value) in Spellings(entry, slot.useSynonyms, norm) || slot.automaticallyExtensible
  }

  /** A value is found when it matches at least one entry of the slot. */
  predicate Found(value: string, slot: SlotDef, norm: string -> string)
  {
    exists k :: 0 <= k < |slot.values| && MatchesEntry(value, slot.values[k], slot, norm)
  }

  /** The values that are not found, in their original order. */
  function Unmatched(values: seq<string>, slot: SlotDef, norm: string -> string): (r: seq<string>)
  {
    if values == [] then []
    else
      var last := values[|values| - 1];
      Unmatched(values[..|values| - 1], slot, norm) + (if Found(last, slot, norm) then [] else [last])
  }

  /** Exactly the values that are not found are reported. */
  lemma {:induction false} UnmatchedMembers(values: seq<string>, slot: SlotDef, norm: string -> string, x: string)
    ensures x in Unmatched(values, slot, norm) <==> x in values && !Found(x, slot, norm)
  {
    if values != [] {
      var init := values[..|values| - 1];
      UnmatchedMembers(init, slot, norm, x);
      assert values == init + [values[|values| - 1]];
    }
  }

  /** An automatically extensible slot with at least one value reports nothing. */
  lemma {:induction false} ExtensibleFindsAll(values: seq<string>, slot: SlotDef, norm: string -> string)
    requires slot.automaticallyExtensible && |slot.values| > 0
    ensures Unmatched(values, slot, norm) == []
  {
    if values != [] {
      assert MatchesEntry(values[|values| - 1], slot.values[0], slot, norm);
      ExtensibleFindsAll(values[..|values| - 1], slot, norm);
    }
  }

  /** A slot with no values reports every value, extensible or not. */
  lemma {:induction false} NoValuesFindsNothing(values: seq<string>, slot: SlotDef, norm: string -> string)
    requires slot.values == []
    ensures Unmatched(values, slot, norm) == values
  {
    if values != [] {
      NoValuesFindsNothing(values[..|values| - 1], slot, norm);
      assert values == values[..|values| - 1] + [values[|values| - 1]];
    }
  }

  /** Without `useSynonyms`, only the normalised values themselves are compared. */
  lemma SynonymsNeedFlag(value: string, slot: SlotDef, norm: string -> string)
    requires !slot.useSynonyms && !slot.automaticallyExtensible
    ensures Found(value, slot, norm) <==> exists k :: 0 <= k < |slot.values| && norm(value) == norm(slot.values[k].value)
  {
    if Found(value, slot, norm) {
      var k :| 0 <= k < |slot.values| && MatchesEntry(value, slot.values[k], slot, norm);
      assert Spellings(slot.values[k], false, norm) == [norm(slot.values[k].value)];
    }
    if exists k :: 0 <= k < |slot.values| && norm(value) == norm(slot.values[k].value) {
      var k :| 0 <= k < |slot.values| && norm(value) == norm(slot.values[k].value);
      assert MatchesEntry(value, slot.values[k], slot, norm);
    }
  }

  /** A synonym of an entry matches only when synonyms are in use and the entry has them. */
  lemma SynonymMatches(value: string, slot: SlotDef, norm: string -> string, k: nat, s: nat)
    requires k < |slot.values| && slot.useSynonyms
    requires slot.values[k].synonyms.Some? && s < |slot.values[k].synonyms.value|
    requires norm(value) == norm(slot.values[k].synonyms.value[s])
    ensures Found(value, slot, norm)
  {
    var entry := slot.values[k];
    assert norm(value) == Spellings(entry, true, norm)[1 + s];
    assert MatchesEntry(value, entry, slot, norm);
  }

  /**
   * `searchMissingSlotValues`: collect the found values entry by entry,
   * then keep the values that were never collected.
   */
  method SearchMissingSlotValues(values: seq<string>, slot: SlotDef, norm: string -> string)
    returns (missing: seq<string>)
    ensures missing == Unmatched(values, slot, norm)
  {
    var found: seq<string> := [];
    var i := 0;
    while i < |values|
      invariant 0 <= i <= |values|
      invariant forall x :: x in found <==> x in values[..i] && Found(x, slot, norm)
    {
      var value := values[i];
      var uValue := norm(value);
      var j := 0;
      while j < |slot.values|
        invariant 0 <= j <= |slot.values|
        invariant forall x :: x in found <==>
          (x in values[..i] && Found(x, slot, norm))
          || (x == value && exists k :: 0 <= k < j && MatchesEntry(value, slot.values[k], slot, norm))
      {
        var allValues := Spellings(slot.values[j], slot.useSynonyms, norm);
        if uValue in allValues || slot.automaticallyExtensible {
          found := found + [value];
        }
        j := j + 1;
      }
      assert values[..i + 1] == values[..i] + [value];
      i := i + 1;
    }
    assert values[..i] == values;
    missing := [];
    var n := 0;
    while n < |values|
      invariant 0 <= n <= |values|
      invariant missing == Unmatched(values[..n], slot, norm)
    {
      assert values[..n + 1][..n] == values[..n];
      if values[n] !in found {
        missing := missing + [values[n]];
      }
      n := n + 1;
    }
    assert values[..n] == values;
  }

  // --------------------------------------------------------- validateSlots

  function Keys<V>(pairs: seq<(string, V)>): (r: seq<string>)
    ensures |r| == |pairs|
    ensures forall i :: 0 <= i < |pairs| ==> r[i] == pairs[i].0
  {
    if pairs == [] then [] else [pairs[0].0] + Keys(pairs[1..])
  }

  function SlotNames(t: Template): seq<string>
  {
    Keys(t.slots)
  }

  /** The key order of `allSlots` after `allSlots.update(...)` with these names. */
  function AddNames(names: seq<string>, more: seq<string>): (r: seq<string>)
    ensures forall x :: x in r <==> x in names || x in more
    ensures NoDuplicates(names) ==> NoDuplicates(r)
    ensures |names| <= |r| && r[..|names|] == names
  {
    if more == [] then names
    else
      var init := AddNames(names, more[..|more| - 1]);
      var last := more[|more| - 1];
      assert more == more[..|more| - 1] + [last];
      if last in init then init
      else
        assert (init + [last])[..|names|] == init[..|names|];
        init + [last]
  }

  predicate NoDuplicates(s: seq<string>)
  {
    forall i, j :: 0 <= i < j < |s| ==> s[i] != s[j]
  }

  /** The names of all slots of all files, each once, in order of first appearance. */
  function UnionNames(files: seq<DialogFile>): (r: seq<string>)
    ensures NoDuplicates(r)
  {
    if files == [] then []
    else AddNames(UnionNames(files[..|files| - 1]), SlotNames(TemplateOf(files[|files| - 1])))
  }

  lemma {:induction false} UnionNamesMembers(files: seq<DialogFile>, x: string)
    ensures x in UnionNames(files) <==> exists i :: 0 <= i < |files| && x in SlotNames(TemplateOf(files[i]))
  {
    if files != [] {
      var init := files[..|files| - 1];
      var last := SlotNames(TemplateOf(files[|files| - 1]));
      UnionNamesMembers(init, x);
      assert UnionNames(files) == AddNames(UnionNames(init), last);
      if x in last {
        assert x in SlotNames(TemplateOf(files[|files| - 1]));
      } else if x in UnionNames(init) {
        var i :| 0 <= i < |init| && x in SlotNames(TemplateOf(init[i]));
        assert files[i] == init[i];
      } else {
        forall i | 0 <= i < |files|
          ensures x !in SlotNames(TemplateOf(files[i]))
        {
          if i < |init| {
            assert files[i] == init[i];
          }
        }
      }
    }
  }

  /** `[k for k in allSlots if k not in slots]`. */
  function Without(names: seq<string>, present: seq<string>): (r: seq<string>)
    ensures forall x :: x in r <==> x in names && x !in present
    ensures NoDuplicates(names) ==> NoDuplicates(r)
  {
    if names == [] then []
    else
      var init := Without(names[..|names| - 1], present);
      var last := names[|names| - 1];
      assert names == names[..|names| - 1] + [last];
      init + (if last in present then [] else [last])
  }

  /** The missing-slot list of one file against the union. */
  function MissingSlots(union: seq<string>, file: DialogFile): seq<string>
  {
    Without(union, SlotNames(TemplateOf(file)))
  }

  /** The second loop of validateSlots, for one file. */
  function SlotsStep(a: Acc, file: DialogFile, union: seq<string>): Acc
  {
    var loaded := SyntaxStep(a, file);
    var missing := MissingSlots(union, file);
    Acc(Put(loaded.report, ["slots", file.name], Items(missing)), loaded.error || missing != [])
  }

  function SlotsPass(a: Acc, files: seq<DialogFile>, union: seq<string>): Acc
  {
    if files == [] then a else SlotsStep(SlotsPass(a, files[..|files| - 1], union), files[|files| - 1], union)
  }

  /** The state after validateSlots. */
  function ValidateSlotsSpec(a: Acc, files: seq<DialogFile>): Acc
  {
    SlotsPass(SyntaxPass(a, files), files, UnionNames(files))
  }

  predicate UniqueNames(files: seq<DialogFile>)
  {
    forall i, j :: 0 <= i < j < |files| ==> files[i].name != files[j].name
  }

  /** Each file's entry under slots/ lists exactly the union's names that the file lacks. */
  lemma {:induction false} SlotsRecorded(a: Acc, files: seq<DialogFile>, union: seq<string>, i: nat)
    requires UniqueNames(files) && i < |files|
    ensures Lookup(SlotsPass(a, files, union).report, ["slots", files[i].name]) == Items(MissingSlots(union, files[i]))
  {
    var n := |files| - 1;
    var path := ["slots", files[i].name];
    var loaded := SyntaxStep(SlotsPass(a, files[..n], union), files[n]);
    if i == n {
      LookupPut(loaded.report, ["slots", files[n].name], Items(MissingSlots(union, files[n])));
    } else {
      SlotsRecorded(a, files[..n], union, i);
      assert files[..n][i] == files[i];
      LookupPutApart(loaded.report, ["slots", files[n].name], path, Items(MissingSlots(union, files[n])));
      if files[n].content.Err? {
        LookupPutApart(SlotsPass(a, files[..n], union).report, ["syntax", files[n].name], path, Text(files[n].content.error));
      }
    }
  }

  /** The error flag after the slot pass: set when it was, or a file is broken or lacks a slot. */
  lemma {:induction false} SlotsPassError(a: Acc, files: seq<DialogFile>, union: seq<string>)
    ensures SlotsPass(a, files, union).error <==>
      a.error || exists i :: 0 <= i < |files| && (files[i].content.Err? || MissingSlots(union, files[i]) != [])
  {
    if files != [] {
      var init := files[..|files| - 1];
      SlotsPassError(a, init, union);
      if SlotsPass(a, init, union).error && !a.error {
        var i :| 0 <= i < |init| && (init[i].content.Err? || MissingSlots(union, init[i]) != []);
        assert files[i] == init[i];
      }
      if exists i :: 0 <= i < |files| && (files[i].content.Err? || MissingSlots(union, files[i]) != []) {
        var i :| 0 <= i < |files| && (files[i].content.Err? || MissingSlots(union, files[i]) != []);
        if i < |init| {
          assert init[i] == files[i];
        }
      }
    }
  }

  lemma {:induction false} SyntaxPassError(a: Acc, files: seq<DialogFile>)
    ensures SyntaxPass(a, files).error <==> a.error || exists i :: 0 <= i < |files| && files[i].content.Err?
  {
    if files != [] {
      var init := files[..|files| - 1];
      SyntaxPassError(a, init);
      assert forall i :: 0 <= i < |init| ==> init[i] == files[i];
    }
  }

  predicate SlotProblem(files: seq<DialogFile>, k: nat)
    requires k < |files|
  {
    files[k].content.Err? || Without(UnionNames(files), SlotNames(TemplateOf(files[k]))) != []
  }

  /**
   * validateSlots as a whole: every file's entry lists the slots of the
   * other files it lacks, and the flag is raised exactly when some file is
   * broken or lacks a slot (or it was raised before).
   */
  lemma ValidateSlotsOutcome(a: Acc, files: seq<DialogFile>, i: nat)
    requires UniqueNames(files) && i < |files|
    ensures var r := ValidateSlotsSpec(a, files);
      && Lookup(r.report, ["slots", files[i].name]) == Items(Without(UnionNames(files), SlotNames(TemplateOf(files[i]))))
      && (r.error <==> a.error || exists k :: 0 <= k < |files| && SlotProblem(files, k))
  {
    SlotsRecorded(SyntaxPass(a, files), files, UnionNames(files), i);
    ValidateSlotsError(a, files);
  }

  lemma ValidateSlotsError(a: Acc, files: seq<DialogFile>)
    ensures ValidateSlotsSpec(a, files).error <==> a.error || exists k :: 0 <= k < |files| && SlotProblem(files, k)
  {
    var loaded := SyntaxPass(a, files);
    SlotsPassError(loaded, files, UnionNames(files));
    SyntaxPassError(a, files);
    var r := SlotsPass(loaded, files, UnionNames(files));
    if r.error && !a.error {
      if loaded.error {
        var k :| 0 <= k < |files| && files[k].content.Err?;
        assert SlotProblem(files, k);
      } else {
        var k :| 0 <= k < |files| && (files[k].content.Err? || MissingSlots(UnionNames(files), files[k]) != []);
        assert SlotProblem(files, k);
      }
    }
    if exists k :: 0 <= k < |files| && SlotProblem(files, k) {
      var k :| 0 <= k < |files| && SlotProblem(files, k);
      assert files[k].content.Err? || MissingSlots(UnionNames(files), files[k]) != [];
    }
  }

  /** The slot check writes only under syntax/ and slots/. */
  lemma {:induction false} SlotsPassKeeps(a: Acc, files: seq<DialogFile>, union: seq<string>, q: seq<string>)
    requires |q| > 0 && q[0] != "syntax" && q[0] != "slots"
    ensures Lookup(SlotsPass(a, files, union).report, q) == Lookup(a.report, q)
  {
    if files != [] {
      var file := files[|files| - 1];
      var before := SlotsPass(a, files[..|files| - 1], union);
      SlotsPassKeeps(a, files[..|files| - 1], union, q);
      SyntaxStepKeeps(before, file, q);
      ApartAt(["slots", file.name], q, 0);
      LookupPutApart(SyntaxStep(before, file).report, ["slots", file.name], q, Items(MissingSlots(union, file)));
    }
  }

  // --------------------------------------------------------- getAllSlots

  /** One module on disk: its dialogTemplate files, by file name (the language). */
  type ModuleTemplates = map<string, DialogFile>

  /** `allSlots.update(slots)` for one file's slots. */
  function Update(all: map<string, SlotDef>, slots: seq<(string, SlotDef)>): (r: map<string, SlotDef>)
    ensures r.Keys == all.Keys + set i | 0 <= i < |slots| :: slots[i].0
  {
    if slots == [] then all
    else Update(all, slots[..|slots| - 1])[slots[|slots| - 1].0 := slots[|slots| - 1].1]
  }

  /** The template files getAllSlots reads: the modules that have a file for the language. */
  function LangFiles(language: string, modules: seq<ModuleTemplates>): seq<DialogFile>
  {
    if modules == [] then []
    else
      var m := modules[|modules| - 1];
      LangFiles(language, modules[..|modules| - 1]) + (if language in m then [m[language]] else [])
  }

  /** The slots getAllSlots returns: the language files' slots, a later module overriding an earlier one. */
  function AllSlots(language: string, modules: seq<ModuleTemplates>): map<string, SlotDef>
  {
    if modules == [] then map[]
    else
      var m := modules[|modules| - 1];
      var all := AllSlots(language, modules[..|modules| - 1]);
      if language in m then Update(all, TemplateOf(m[language]).slots) else all
  }

  /** A slot is known for a language exactly when some module's file for it defines the slot. */
  lemma {:induction false} AllSlotsMembers(language: string, modules: seq<ModuleTemplates>, slot: string)
    ensures slot in AllSlots(language, modules) <==>
      exists i :: 0 <= i < |modules| && language in modules[i] && slot in SlotNames(TemplateOf(modules[i][language]))
  {
    if modules != [] {
      var init := modules[..|modules| - 1];
      AllSlotsMembers(language, init, slot);
      assert forall i :: 0 <= i < |init| ==> init[i] == modules[i];
      var m := modules[|modules| - 1];
      if language in m {
        var slots := TemplateOf(m[language]).slots;
        assert slot in SlotNames(TemplateOf(m[language])) <==> exists k :: 0 <= k < |slots| && slots[k].0 == slot;
      }
    }
  }

  // --------------------------------------------------- validateIntentSlots

  /** A slot of an utterance is reported when it is no builtin and is unknown or has unknown values. */
  predicate SlotFlagged(slot: string, values: seq<string>, known: map<string, SlotDef>, builtins: set<string>, norm: string -> string)
  {
    slot !in builtins && (slot !in known || Unmatched(values, known[slot], norm) != [])
  }

  /** The body of the innermost loop of validateIntentSlots, for one slot of one intent. */
  function CheckSlot(a: Acc, name: string, intent: string, slot: string, values: seq<string>,
                     known: map<string, SlotDef>, builtins: set<string>, norm: string -> string): (r: Acc)
    ensures r.error == (a.error || SlotFlagged(slot, values, known, builtins, norm))
  {
    if slot in builtins then a
    else if slot !in known then
      var missingSlots := ["utterances", name, "missingSlots"];
      var touched := Touch(a.report, missingSlots);
      if intent in Entries(Lookup(touched, missingSlots)) then Acc(Append(touched, missingSlots + [intent], slot), true)
      else Acc(Put(touched, missingSlots + [intent], Items([slot])), true)
    else
      var missing := Unmatched(values, known[slot], norm);
      if missing != [] then Acc(Put(a.report, ["utterances", name, "missingSlotValue", intent, slot], Items(missing)), true)
      else a
  }

  function CheckSlots(a: Acc, name: string, intent: string, slots: seq<(string, seq<string>)>,
                      known: map<string, SlotDef>, builtins: set<string>, norm: string -> string): Acc
  {
    if slots == [] then a
    else
      var last := slots[|slots| - 1];
      CheckSlot(CheckSlots(a, name, intent, slots[..|slots| - 1], known, builtins, norm), name, intent, last.0, last.1, known, builtins, norm)
  }

  function CheckIntents(a: Acc, name: string, intents: Grouping,
                        known: map<string, SlotDef>, builtins: set<string>, norm: string -> string): Acc
  {
    if intents == [] then a
    else
      var last := intents[|intents| - 1];
      CheckSlots(CheckIntents(a, name, intents[..|intents| - 1], known, builtins, norm), name, last.0, last.1, known, builtins, norm)
  }

  /** The second loop of validateIntentSlots, for one file. */
  function IntentSlotsStep(a: Acc, file: DialogFile, known: map<string, SlotDef>, builtins: set<string>, norm: string -> string): Acc
  {
    var touched := Acc(Touch(a.report, ["utterances", file.name]), a.error);
    CheckIntents(SyntaxStep(touched, file), file.name, TemplateOf(file).utteranceSlots, known, builtins, norm)
  }

  function IntentSlotsPass(a: Acc, files: seq<DialogFile>, modules: seq<ModuleTemplates>, builtins: set<string>, norm: string -> string): Acc
  {
    if files == [] then a
    else
      var last := files[|files| - 1];
      IntentSlotsStep(IntentSlotsPass(a, files[..|files| - 1], modules, builtins, norm), last, AllSlots(last.name, modules), builtins, norm)
  }

  /** The first loop of validateIntentSlots: getAllSlots per file, which checks the syntax of every file it reads. */
  function LoadAllSlots(a: Acc, files: seq<DialogFile>, modules: seq<ModuleTemplates>): Acc
  {
    if files == [] then a
    else SyntaxPass(LoadAllSlots(a, files[..|files| - 1], modules), LangFiles(files[|files| - 1].name, modules))
  }

  /** The state after validateIntentSlots. */
  function ValidateIntentSlotsSpec(a: Acc, files: seq<DialogFile>, modules: seq<ModuleTemplates>, builtins: set<string>, norm: string -> string): Acc
  {
    IntentSlotsPass(LoadAllSlots(a, files, modules), files, modules, builtins, norm)
  }

  predicate IntentFlagged(slots: seq<(string, seq<string>)>, known: map<string, SlotDef>, builtins: set<string>, norm: string -> string)
  {
    exists j :: 0 <= j < |slots| && SlotFlagged(slots[j].0, slots[j].1, known, builtins, norm)
  }

  predicate IntentsFlagged(intents: Grouping, known: map<string, SlotDef>, builtins: set<string>, norm: string -> string)
  {
    exists i :: 0 <= i < |intents| && IntentFlagged(intents[i].1, known, builtins, norm)
  }

  /** A file is reported when it does not parse or one of its intents uses a reported slot. */
  predicate FileFlagged(file: DialogFile, known: map<string, SlotDef>, builtins: set<string>, norm: string -> string)
  {
    file.content.Err? || IntentsFlagged(TemplateOf(file).utteranceSlots, known, builtins, norm)
  }

  lemma {:induction false} CheckSlotsError(a: Acc, name: string, intent: string, slots: seq<(string, seq<string>)>,
                                           known: map<string, SlotDef>, builtins: set<string>, norm: string -> string)
    ensures CheckSlots(a, name, intent, slots, known, builtins, norm).error <==> a.error || IntentFlagged(slots, known, builtins, norm)
  {
    if slots != [] {
      var init := slots[..|slots| - 1];
      CheckSlotsError(a, name, intent, init, known, builtins, norm);
      assert forall j :: 0 <= j < |init| ==> init[j] == slots[j];
      if IntentFlagged(init, known, builtins, norm) {
        var j :| 0 <= j < |init| && SlotFlagged(init[j].0, init[j].1, known, builtins, norm);
        assert SlotFlagged(slots[j].0, slots[j].1, known, builtins, norm);
      }
    }
  }

  lemma {:induction false} CheckIntentsError(a: Acc, name: string, intents: Grouping,
                                             known: map<string, SlotDef>, builtins: set<string>, norm: string -> string)
    ensures CheckIntents(a, name, intents, known, builtins, norm).error <==> a.error || IntentsFlagged(intents, known, builtins, norm)
  {
    if intents != [] {
      var init := intents[..|intents| - 1];
      var last := intents[|intents| - 1];
      CheckIntentsError(a, name, init, known, builtins, norm);
      CheckSlotsError(CheckIntents(a, name, init, known, builtins, norm), name, last.0, last.1, known, builtins, norm);
      assert forall i :: 0 <= i < |init| ==> init[i] == intents[i];
      if IntentsFlagged(init, known, builtins, norm) {
        var i :| 0 <= i < |init| && IntentFlagged(init[i].1, known, builtins, norm);
        assert IntentFlagged(intents[i].1, known, builtins, norm);
      }
    }
  }

  /** The flag after the intent-slot pass: raised exactly when some file is reported (or it was before). */
  lemma {:induction false} IntentSlotsPassError(a: Acc, files: seq<DialogFile>, modules: seq<ModuleTemplates>, builtins: set<string>, norm: string -> string)
    ensures IntentSlotsPass(a, files, modules, builtins, norm).error <==>
      a.error || exists k :: 0 <= k < |files| && FileFlagged(files[k], AllSlots(files[k].name, modules), builtins, norm)
  {
    if files != [] {
      var init := files[..|files| - 1];
      var last := files[|files| - 1];
      var before := IntentSlotsPass(a, init, modules, builtins, norm);
      IntentSlotsPassError(a, init, modules, builtins, norm);
      var touched := Acc(Touch(before.report, ["utterances", last.name]), before.error);
      CheckIntentsError(SyntaxStep(touched, last), last.name, TemplateOf(last).utteranceSlots, AllSlots(last.name, modules), builtins, norm);
      assert forall k :: 0 <= k < |init| ==> init[k] == files[k];
      if exists k :: 0 <= k < |init| && FileFlagged(init[k], AllSlots(init[k].name, modules), builtins, norm) {
        var k :| 0 <= k < |init| && FileFlagged(init[k], AllSlots(init[k].name, modules), builtins, norm);
        assert FileFlagged(files[k], AllSlots(files[k].name, modules), builtins, norm);
      }
    }
  }

  /** Where validateIntentSlots lists the unknown slots of an intent. */
  function MissingSlotsPath(name: string, intent: string): seq<string>
  {
    ["utterances", name, "missingSlots", intent]
  }

  /** The slots of an intent that are neither builtin nor known, in order. */
  function UnknownSlots(slots: seq<(string, seq<string>)>, known: map<string, SlotDef>, builtins: set<string>): (r: seq<string>)
    ensures forall x :: x in r ==> x !in builtins && x !in known
  {
    if slots == [] then []
    else
      var last := slots[|slots| - 1].0;
      UnknownSlots(slots[..|slots| - 1], known, builtins) + (if last !in builtins && last !in known then [last] else [])
  }

  /** A list entry after appending the given strings one by one; with none, the entry is as it was. */
  function Appended(entry: Report, added: seq<string>): Report
  {
    if added == [] then entry else Items(ItemsOf(entry) + added)
  }

  /** The paths one slot check of this intent leaves reading as before. */
  predicate KeptByCheckSlot(q: seq<string>, name: string, intent: string)
  {
    && (Apart(["utterances", name, "missingSlots"], q) || Below(["utterances", name, "missingSlots"], q))
    && Apart(MissingSlotsPath(name, intent), q)
    && Apart(["utterances", name, "missingSlotValue", intent], q)
  }

  lemma KeptOtherIntent(name: string, intent: string, other: string)
    requires intent != other
    ensures KeptByCheckSlot(MissingSlotsPath(name, intent), name, other)
  {
    var q := MissingSlotsPath(name, intent);
    assert q[..3] == ["utterances", name, "missingSlots"];
    ApartAt(MissingSlotsPath(name, other), q, 3);
    ApartAt(["utterances", name, "missingSlotValue", other], q, 2);
  }

  lemma KeptOtherFile(q: seq<string>, name: string, intent: string)
    requires Apart(["utterances", name], q)
    ensures KeptByCheckSlot(q, name, intent)
  {
    ApartExtend(["utterances", name], ["missingSlots"], q);
    ApartExtend(["utterances", name], ["missingSlots", intent], q);
    ApartExtend(["utterances", name], ["missingSlotValue", intent], q);
  }

  lemma CheckSlotKeeps(a: Acc, name: string, intent: string, slot: string, values: seq<string>,
                       known: map<string, SlotDef>, builtins: set<string>, norm: string -> string, q: seq<string>)
    requires KeptByCheckSlot(q, name, intent)
    ensures Lookup(CheckSlot(a, name, intent, slot, values, known, builtins, norm).report, q) == Lookup(a.report, q)
  {
    if slot !in builtins {
      var missingSlots := ["utterances", name, "missingSlots"];
      if slot !in known {
        var touched := Touch(a.report, missingSlots);
        TouchKeeps(a.report, missingSlots, q);
        assert missingSlots + [intent] == MissingSlotsPath(name, intent);
        LookupPutApart(touched, missingSlots + [intent], q, Items(ItemsOf(Lookup(touched, missingSlots + [intent])) + [slot]));
        LookupPutApart(touched, missingSlots + [intent], q, Items([slot]));
      } else {
        var p := ["utterances", name, "missingSlotValue", intent];
        ApartExtend(p, [slot], q);
        assert p + [slot] == ["utterances", name, "missingSlotValue", intent, slot];
        LookupPutApart(a.report, p + [slot], q, Items(Unmatched(values, known[slot], norm)));
      }
    }
  }

  lemma {:induction false} CheckSlotsKeeps(a: Acc, name: string, intent: string, slots: seq<(string, seq<string>)>,
                                           known: map<string, SlotDef>, builtins: set<string>, norm: string -> string, q: seq<string>)
    requires KeptByCheckSlot(q, name, intent)
    ensures Lookup(CheckSlots(a, name, intent, slots, known, builtins, norm).report, q) == Lookup(a.report, q)
  {
    if slots != [] {
      var last := slots[|slots| - 1];
      CheckSlotsKeeps(a, name, intent, slots[..|slots| - 1], known, builtins, norm, q);
      CheckSlotKeeps(CheckSlots(a, name, intent, slots[..|slots| - 1], known, builtins, norm), name, intent, last.0, last.1, known, builtins, norm, q);
    }
  }

  lemma {:induction false} CheckIntentsKeeps(a: Acc, name: string, intents: Grouping,
                                             known: map<string, SlotDef>, builtins: set<string>, norm: string -> string, q: seq<string>)
    requires forall i :: 0 <= i < |intents| ==> KeptByCheckSlot(q, name, intents[i].0)
    ensures Lookup(CheckIntents(a, name, intents, known, builtins, norm).report, q) == Lookup(a.report, q)
  {
    if intents != [] {
      var last := intents[|intents| - 1];
      CheckIntentsKeeps(a, name, intents[..|intents| - 1], known, builtins, norm, q);
      CheckSlotsKeeps(CheckIntents(a, name, intents[..|intents| - 1], known, builtins, norm), name, last.0, last.1, known, builtins, norm, q);
    }
  }

  /** Appending twice is appending the two lists one after the other. */
  lemma AppendedTwice(entry: Report, x: seq<string>, y: seq<string>)
    ensures Appended(Appended(entry, x), y) == Appended(entry, x + y)
  {
    if y == [] {
      assert x + y == x;
    } else if x != [] {
      assert ItemsOf(entry) + x + y == ItemsOf(entry) + (x + y);
    }
  }

  /** Checking one slot appends it to the intent's missingSlots list exactly when it is neither builtin nor known. */
  lemma CheckSlotMissing(a: Acc, name: string, intent: string, slot: string, values: seq<string>,
                         known: map<string, SlotDef>, builtins: set<string>, norm: string -> string)
    ensures var q := MissingSlotsPath(name, intent);
      Lookup(CheckSlot(a, name, intent, slot, values, known, builtins, norm).report, q)
        == Appended(Lookup(a.report, q), if slot !in builtins && slot !in known then [slot] else [])
  {
    var q := MissingSlotsPath(name, intent);
    var missingSlots := ["utterances", name, "missingSlots"];
    if slot in builtins {
    } else if slot !in known {
      var touched := Touch(a.report, missingSlots);
      assert q[..3] == missingSlots;
      TouchKeeps(a.report, missingSlots, q);
      assert missingSlots + [intent] == q;
      if intent in Entries(Lookup(touched, missingSlots)) {
        LookupPut(touched, q, Items(ItemsOf(Lookup(touched, q)) + [slot]));
      } else {
        LookupConcat(touched, missingSlots, [intent]);
        LookupPut(touched, q, Items([slot]));
      }
    } else {
      var p := ["utterances", name, "missingSlotValue", intent, slot];
      ApartAt(p, q, 2);
      LookupPutApart(a.report, p, q, Items(Unmatched(values, known[slot], norm)));
    }
  }

  /** Checking an intent's slots appends its unknown slots, in order, to its missingSlots list. */
  lemma {:induction false} CheckSlotsMissing(a: Acc, name: string, intent: string, slots: seq<(string, seq<string>)>,
                                             known: map<string, SlotDef>, builtins: set<string>, norm: string -> string)
    ensures var q := MissingSlotsPath(name, intent);
      Lookup(CheckSlots(a, name, intent, slots, known, builtins, norm).report, q)
        == Appended(Lookup(a.report, q), UnknownSlots(slots, known, builtins))
  {
    if slots != [] {
      var q := MissingSlotsPath(name, intent);
      var init := slots[..|slots| - 1];
      var last := slots[|slots| - 1];
      var before := CheckSlots(a, name, intent, init, known, builtins, norm);
      CheckSlotsMissing(a, name, intent, init, known, builtins, norm);
      CheckSlotMissing(before, name, intent, last.0, last.1, known, builtins, norm);
      AppendedTwice(Lookup(a.report, q), UnknownSlots(init, known, builtins),
                    if last.0 !in builtins && last.0 !in known then [last.0] else []);
    }
  }

  predicate UniqueKeys<V>(pairs: seq<(string, V)>)
  {
    forall i, j :: 0 <= i < j < |pairs| ==> pairs[i].0 != pairs[j].0
  }

  lemma {:induction false} CheckIntentsMissing(a: Acc, name: string, intents: Grouping, i: nat,
                                               known: map<string, SlotDef>, builtins: set<string>, norm: string -> string)
    requires UniqueKeys(intents) && i < |intents|
    ensures var q := MissingSlotsPath(name, intents[i].0);
      Lookup(CheckIntents(a, name, intents, known, builtins, norm).report, q)
        == Appended(Lookup(a.report, q), UnknownSlots(intents[i].1, known, builtins))
  {
    var n := |intents| - 1;
    var init := intents[..n];
    var last := intents[n];
    var q := MissingSlotsPath(name, intents[i].0);
    if i == n {
      forall k | 0 <= k < |init|
        ensures KeptByCheckSlot(q, name, init[k].0)
      {
        KeptOtherIntent(name, intents[i].0, init[k].0);
      }
      CheckIntentsKeeps(a, name, init, known, builtins, norm, q);
      CheckSlotsMissing(CheckIntents(a, name, init, known, builtins, norm), name, last.0, last.1, known, builtins, norm);
    } else {
      CheckIntentsMissing(a, name, init, i, known, builtins, norm);
      KeptOtherIntent(name, intents[i].0, last.0);
      CheckSlotsKeeps(CheckIntents(a, name, init, known, builtins, norm), name, last.0, last.1, known, builtins, norm, q);
    }
  }

  lemma IntentSlotsStepKeeps(a: Acc, file: DialogFile, known: map<string, SlotDef>, builtins: set<string>, norm: string -> string, q: seq<string>)
    requires |q| > 0 && q[0] == "utterances" && Apart(["utterances", file.name], q)
    ensures Lookup(IntentSlotsStep(a, file, known, builtins, norm).report, q) == Lookup(a.report, q)
  {
    var touched := Acc(Touch(a.report, ["utterances", file.name]), a.error);
    TouchKeeps(a.report, ["utterances", file.name], q);
    if file.content.Err? {
      ApartAt(["syntax", file.name], q, 0);
      LookupPutApart(touched.report, ["syntax", file.name], q, Text(file.content.error));
    }
    var intents := TemplateOf(file).utteranceSlots;
    forall k | 0 <= k < |intents|
      ensures KeptByCheckSlot(q, file.name, intents[k].0)
    {
      KeptOtherFile(q, file.name, intents[k].0);
    }
    CheckIntentsKeeps(SyntaxStep(touched, file), file.name, intents, known, builtins, norm, q);
  }

  /**
   * After the intent-slot pass, the missingSlots list of every intent of
   * every file holds exactly that intent's slots that are neither builtin
   * nor known for the file's language, in order, after what it held before.
   */
  lemma {:induction false} IntentSlotsPassMissing(a: Acc, files: seq<DialogFile>, modules: seq<ModuleTemplates>,
                                                  builtins: set<string>, norm: string -> string, k: nat, i: nat)
    requires UniqueNames(files) && k < |files|
    requires UniqueKeys(TemplateOf(files[k]).utteranceSlots) && i < |TemplateOf(files[k]).utteranceSlots|
    ensures var intent := TemplateOf(files[k]).utteranceSlots[i];
      var q := MissingSlotsPath(files[k].name, intent.0);
      Lookup(IntentSlotsPass(a, files, modules, builtins, norm).report, q)
        == Appended(Lookup(a.report, q), UnknownSlots(intent.1, AllSlots(files[k].name, modules), builtins))
  {
    var n := |files| - 1;
    var file := files[k];
    var intent := TemplateOf(file).utteranceSlots[i];
    var q := MissingSlotsPath(file.name, intent.0);
    var before := IntentSlotsPass(a, files[..n], modules, builtins, norm);
    if k == n {
      var known := AllSlots(file.name, modules);
      var touched := Acc(Touch(before.report, ["utterances", file.name]), before.error);
      assert q[..2] == ["utterances", file.name];
      TouchKeeps(before.report, ["utterances", file.name], q);
      assert file.content.Ok?;
      CheckIntentsMissing(touched, file.name, TemplateOf(file).utteranceSlots, i, known, builtins, norm);
      IntentSlotsEarlierKeep(a, files[..n], modules, builtins, norm, q);
    } else {
      assert files[..n][k] == file;
      IntentSlotsPassMissing(a, files[..n], modules, builtins, norm, k, i);
      ApartAt(["utterances", files[n].name], q, 1);
      IntentSlotsStepKeeps(before, files[n], AllSlots(files[n].name, modules), builtins, norm, q);
    }
  }

  /** Files other than the one a path belongs to leave it alone. */
  lemma {:induction false} IntentSlotsEarlierKeep(a: Acc, files: seq<DialogFile>, modules: seq<ModuleTemplates>,
                                                  builtins: set<string>, norm: string -> string, q: seq<string>)
    requires |q| > 1 && q[0] == "utterances"
    requires forall k :: 0 <= k < |files| ==> files[k].name != q[1]
    ensures Lookup(IntentSlotsPass(a, files, modules, builtins, norm).report, q) == Lookup(a.report, q)
  {
    if files != [] {
      var n := |files| - 1;
      IntentSlotsEarlierKeep(a, files[..n], modules, builtins, norm, q);
      ApartAt(["utterances", files[n].name], q, 1);
      IntentSlotsStepKeeps(IntentSlotsPass(a, files[..n], modules, builtins, norm), files[n], AllSlots(files[n].name, modules), builtins, norm, q);
    }
  }

  /** Where validateIntentSlots lists the unknown values of a slot of an intent. */
  function MissingValuesPath(name: string, intent: string, slot: string): seq<string>
  {
    ["utterances", name, "missingSlotValue", intent, slot]
  }

  /** What a slot's check leaves under missingSlotValue: its unknown values, when it has any. */
  function ValuesEntry(before: Report, slot: string, values: seq<string>, known: map<string, SlotDef>, builtins: set<string>, norm: string -> string): Report
  {
    if slot !in builtins && slot in known && Unmatched(values, known[slot], norm) != [] then Items(Unmatched(values, known[slot], norm))
    else before
  }

  lemma CheckSlotOtherSlot(a: Acc, name: string, intent: string, slot: string, values: seq<string>,
                           known: map<string, SlotDef>, builtins: set<string>, norm: string -> string, other: string)
    requires slot != other
    ensures var q := MissingValuesPath(name, intent, other);
      Lookup(CheckSlot(a, name, intent, slot, values, known, builtins, norm).report, q) == Lookup(a.report, q)
  {
    var q := MissingValuesPath(name, intent, other);
    ApartAt(MissingValuesPath(name, intent, slot), q, 4);
    ApartAt(["utterances", name, "missingSlots"], q, 2);
    ApartExtend(["utterances", name, "missingSlots"], [intent], q);
    KeptOtherSlot(a, name, intent, slot, values, known, builtins, norm, q);
  }

  /** One slot check leaves alone every path apart from what it writes. */
  lemma KeptOtherSlot(a: Acc, name: string, intent: string, slot: string, values: seq<string>,
                      known: map<string, SlotDef>, builtins: set<string>, norm: string -> string, q: seq<string>)
    requires Apart(["utterances", name, "missingSlots"], q) && Apart(MissingValuesPath(name, intent, slot), q)
    ensures Lookup(CheckSlot(a, name, intent, slot, values, known, builtins, norm).report, q) == Lookup(a.report, q)
  {
    var missingSlots := ["utterances", name, "missingSlots"];
    if slot !in builtins && slot !in known {
      var touched := Touch(a.report, missingSlots);
      TouchKeeps(a.report, missingSlots, q);
      ApartExtend(missingSlots, [intent], q);
      LookupPutApart(touched, missingSlots + [intent], q, Items(ItemsOf(Lookup(touched, missingSlots + [intent])) + [slot]));
      LookupPutApart(touched, missingSlots + [intent], q, Items([slot]));
    } else if slot !in builtins {
      LookupPutApart(a.report, MissingValuesPath(name, intent, slot), q, Items(Unmatched(values, known[slot], norm)));
    }
  }

  lemma {:induction false} CheckSlotsValues(a: Acc, name: string, intent: string, slots: seq<(string, seq<string>)>, j: nat,
                                            known: map<string, SlotDef>, builtins: set<string>, norm: string -> string)
    requires UniqueKeys(slots) && j < |slots|
    ensures var q := MissingValuesPath(name, intent, slots[j].0);
      Lookup(CheckSlots(a, name, intent, slots, known, builtins, norm).report, q)
        == ValuesEntry(Lookup(a.report, q), slots[j].0, slots[j].1, known, builtins, norm)
  {
    var n := |slots| - 1;
    var init := slots[..n];
    var q := MissingValuesPath(name, intent, slots[j].0);
    var before := CheckSlots(a, name, intent, init, known, builtins, norm);
    if j == n {
      CheckSlotsOtherSlots(a, name, intent, init, known, builtins, norm, slots[j].0);
      var slot := slots[j].0;
      if slot !in builtins && slot !in known {
        KeptOtherSlotAt(before, name, intent, slots[j].1, known, builtins, norm, slot);
      } else if slot !in builtins && Unmatched(slots[j].1, known[slot], norm) != [] {
        LookupPut(before.report, q, Items(Unmatched(slots[j].1, known[slot], norm)));
      }
    } else {
      CheckSlotsValues(a, name, intent, init, j, known, builtins, norm);
      CheckSlotOtherSlot(before, name, intent, slots[n].0, slots[n].1, known, builtins, norm, slots[j].0);
    }
  }

  /** An unknown slot does not write under missingSlotValue at all. */
  lemma KeptOtherSlotAt(a: Acc, name: string, intent: string, values: seq<string>,
                        known: map<string, SlotDef>, builtins: set<string>, norm: string -> string, slot: string)
    requires slot !in builtins && slot !in known
    ensures var q := MissingValuesPath(name, intent, slot);
      Lookup(CheckSlot(a, name, intent, slot, values, known, builtins, norm).report, q) == Lookup(a.report, q)
  {
    var q := MissingValuesPath(name, intent, slot);
    var missingSlots := ["utterances", name, "missingSlots"];
    ApartAt(missingSlots, q, 2);
    var touched := Touch(a.report, missingSlots);
    TouchKeeps(a.report, missingSlots, q);
    ApartExtend(missingSlots, [intent], q);
    LookupPutApart(touched, missingSlots + [intent], q, Items(ItemsOf(Lookup(touched, missingSlots + [intent])) + [slot]));
    LookupPutApart(touched, missingSlots + [intent], q, Items([slot]));
  }

  lemma {:induction false} CheckSlotsOtherSlots(a: Acc, name: string, intent: string, slots: seq<(string, seq<string>)>,
                                                known: map<string, SlotDef>, builtins: set<string>, norm: string -> string, other: string)
    requires forall j :: 0 <= j < |slots| ==> slots[j].0 != other
    ensures var q := MissingValuesPath(name, intent, other);
      Lookup(CheckSlots(a, name, intent, slots, known, builtins, norm).report, q) == Lookup(a.report, q)
  {
    if slots != [] {
      var n := |slots| - 1;
      CheckSlotsOtherSlots(a, name, intent, slots[..n], known, builtins, norm, other);
      CheckSlotOtherSlot(CheckSlots(a, name, intent, slots[..n], known, builtins, norm), name, intent, slots[n].0, slots[n].1, known, builtins, norm, other);
    }
  }

  lemma KeptValuesOtherIntent(name: string, intent: string, slot: string, other: string)
    requires intent != other
    ensures KeptByCheckSlot(MissingValuesPath(name, intent, slot), name, other)
  {
    var q := MissingValuesPath(name, intent, slot);
    ApartAt(["utterances", name, "missingSlots"], q, 2);
    ApartAt(MissingSlotsPath(name, other), q, 2);
    ApartAt(["utterances", name, "missingSlotValue", other], q, 3);
  }

  lemma {:induction false} CheckIntentsValues(a: Acc, name: string, intents: Grouping, i: nat, j: nat,
                                              known: map<string, SlotDef>, builtins: set<string>, norm: string -> string)
    requires UniqueKeys(intents) && i < |intents| && UniqueKeys(intents[i].1) && j < |intents[i].1|
    ensures var slot := intents[i].1[j];
      var q := MissingValuesPath(name, intents[i].0, slot.0);
      Lookup(CheckIntents(a, name, intents, known, builtins, norm).report, q)
        == ValuesEntry(Lookup(a.report, q), slot.0, slot.1, known, builtins, norm)
  {
    var n := |intents| - 1;
    var init := intents[..n];
    var last := intents[n];
    var q := MissingValuesPath(name, intents[i].0, intents[i].1[j].0);
    if i == n {
      forall k | 0 <= k < |init|
        ensures KeptByCheckSlot(q, name, init[k].0)
      {
        KeptValuesOtherIntent(name, intents[i].0, intents[i].1[j].0, init[k].0);
      }
      CheckIntentsKeeps(a, name, init, known, builtins, norm, q);
      CheckSlotsValues(CheckIntents(a, name, init, known, builtins, norm), name, last.0, last.1, j, known, builtins, norm);
    } else {
      CheckIntentsValues(a, name, init, i, j, known, builtins, norm);
      KeptValuesOtherIntent(name, intents[i].0, intents[i].1[j].0, last.0);
      CheckSlotsKeeps(CheckIntents(a, name, init, known, builtins, norm), name, last.0, last.1, known, builtins, norm, q);
    }
  }

  /**
   * After the intent-slot pass, a known, non-builtin slot of an intent has
   * its unknown values listed under missingSlotValue when there are any;
   * otherwise the entry is as it was.
   */
  lemma {:induction false} IntentSlotsPassValues(a: Acc, files: seq<DialogFile>, modules: seq<ModuleTemplates>,
                                                 builtins: set<string>, norm: string -> string, k: nat, i: nat, j: nat)
    requires UniqueNames(files) && k < |files|
    requires var intents := TemplateOf(files[k]).utteranceSlots;
      UniqueKeys(intents) && i < |intents| && UniqueKeys(intents[i].1) && j < |intents[i].1|
    ensures var intent := TemplateOf(files[k]).utteranceSlots[i];
      var q := MissingValuesPath(files[k].name, intent.0, intent.1[j].0);
      Lookup(IntentSlotsPass(a, files, modules, builtins, norm).report, q)
        == ValuesEntry(Lookup(a.report, q), intent.1[j].0, intent.1[j].1, AllSlots(files[k].name, modules), builtins, norm)
  {
    var n := |files| - 1;
    var file := files[k];
    var intent := TemplateOf(file).utteranceSlots[i];
    var q := MissingValuesPath(file.name, intent.0, intent.1[j].0);
    var before := IntentSlotsPass(a, files[..n], modules, builtins, norm);
    if k == n {
      var touched := Acc(Touch(before.report, ["utterances", file.name]), before.error);
      assert q[..2] == ["utterances", file.name];
      TouchKeeps(before.report, ["utterances", file.name], q);
      assert file.content.Ok?;
      CheckIntentsValues(touched, file.name, TemplateOf(file).utteranceSlots, i, j, AllSlots(file.name, modules), builtins, norm);
      IntentSlotsEarlierKeep(a, files[..n], modules, builtins, norm, q);
    } else {
      assert files[..n][k] == file;
      IntentSlotsPassValues(a, files[..n], modules, builtins, norm, k, i, j);
      ApartAt(["utterances", files[n].name], q, 1);
      IntentSlotsStepKeeps(before, files[n], AllSlots(files[n].name, modules), builtins, norm, q);
    }
  }

  // ---------------------------------------------- searchDuplicateUtterances

  /** The innermost loop of searchDuplicateUtterances: groups of more than one utterance are recorded. */
  function RecordGroups(a: Acc, duplicates: seq<string>, intent: string, groups: seq<(string, seq<string>)>): Acc
  {
    if groups == [] then a
    else
      var acc := RecordGroups(a, duplicates, intent, groups[..|groups| - 1]);
      var last := groups[|groups| - 1];
      if |last.1| > 1 then Acc(Put(acc.report, duplicates + [intent, last.0], Items(last.1)), true) else acc
  }

  function RecordIntents(a: Acc, duplicates: seq<string>, intents: Grouping): Acc
  {
    if intents == [] then a
    else
      var last := intents[|intents| - 1];
      RecordGroups(RecordIntents(a, duplicates, intents[..|intents| - 1]), duplicates, last.0, last.1)
  }

  /** searchDuplicateUtterances for one file. */
  function DuplicatesStep(a: Acc, file: DialogFile): Acc
  {
    var duplicates := ["utterances", file.name, "duplicates"];
    var touched := Acc(Touch(a.report, duplicates), a.error);
    RecordIntents(SyntaxStep(touched, file), duplicates, TemplateOf(file).shortUtterances)
  }

  function DuplicatesPass(a: Acc, files: seq<DialogFile>): Acc
  {
    if files == [] then a else DuplicatesStep(DuplicatesPass(a, files[..|files| - 1]), files[|files| - 1])
  }

  predicate GroupsDuplicate(groups: seq<(string, seq<string>)>)
  {
    exists j :: 0 <= j < |groups| && |groups[j].1| > 1
  }

  predicate IntentsDuplicate(intents: Grouping)
  {
    exists i :: 0 <= i < |intents| && GroupsDuplicate(intents[i].1)
  }

  lemma {:induction false} RecordGroupsError(a: Acc, duplicates: seq<string>, intent: string, groups: seq<(string, seq<string>)>)
    ensures RecordGroups(a, duplicates, intent, groups).error <==> a.error || GroupsDuplicate(groups)
  {
    if groups != [] {
      var init := groups[..|groups| - 1];
      RecordGroupsError(a, duplicates, intent, init);
      assert forall j :: 0 <= j < |init| ==> init[j] == groups[j];
    }
  }

  lemma {:induction false} RecordIntentsError(a: Acc, duplicates: seq<string>, intents: Grouping)
    ensures RecordIntents(a, duplicates, intents).error <==> a.error || IntentsDuplicate(intents)
  {
    if intents != [] {
      var init := intents[..|intents| - 1];
      var last := intents[|intents| - 1];
      RecordIntentsError(a, duplicates, init);
      RecordGroupsError(RecordIntents(a, duplicates, init), duplicates, last.0, last.1);
      assert forall i :: 0 <= i < |init| ==> init[i] == intents[i];
      if IntentsDuplicate(init) {
        var i :| 0 <= i < |init| && GroupsDuplicate(init[i].1);
        assert GroupsDuplicate(intents[i].1);
      }
    }
  }

  /** The flag after the duplicate search: raised when a file does not parse or repeats a short utterance. */
  lemma {:induction false} DuplicatesPassError(a: Acc, files: seq<DialogFile>)
    ensures DuplicatesPass(a, files).error <==>
      a.error || exists k :: 0 <= k < |files| && (files[k].content.Err? || IntentsDuplicate(TemplateOf(files[k]).shortUtterances))
  {
    if files != [] {
      var init := files[..|files| - 1];
      var last := files[|files| - 1];
      var before := DuplicatesPass(a, init);
      DuplicatesPassError(a, init);
      var touched := Acc(Touch(before.report, ["utterances", last.name, "duplicates"]), before.error);
      RecordIntentsError(SyntaxStep(touched, last), ["utterances", last.name, "duplicates"], TemplateOf(last).shortUtterances);
      assert forall k :: 0 <= k < |init| ==> init[k] == files[k];
    }
  }

  /** Where searchDuplicateUtterances records the utterances sharing a short form. */
  function DuplicatesPath(name: string, intent: string, short: string): seq<string>
  {
    ["utterances", name, "duplicates", intent, short]
  }

  lemma {:induction false} RecordGroupsKeeps(a: Acc, duplicates: seq<string>, intent: string, groups: seq<(string, seq<string>)>, q: seq<string>)
    requires Apart(duplicates + [intent], q)
    ensures Lookup(RecordGroups(a, duplicates, intent, groups).report, q) == Lookup(a.report, q)
  {
    if groups != [] {
      var n := |groups| - 1;
      RecordGroupsKeeps(a, duplicates, intent, groups[..n], q);
      ApartExtend(duplicates + [intent], [groups[n].0], q);
      assert duplicates + [intent] + [groups[n].0] == duplicates + [intent, groups[n].0];
      LookupPutApart(RecordGroups(a, duplicates, intent, groups[..n]).report, duplicates + [intent, groups[n].0], q, Items(groups[n].1));
    }
  }

  lemma {:induction false} RecordGroupsEntry(a: Acc, duplicates: seq<string>, intent: string, groups: seq<(string, seq<string>)>, j: nat)
    requires UniqueKeys(groups) && j < |groups|
    ensures var q := duplicates + [intent, groups[j].0];
      Lookup(RecordGroups(a, duplicates, intent, groups).report, q)
        == if |groups[j].1| > 1 then Items(groups[j].1) else Lookup(a.report, q)
  {
    var n := |groups| - 1;
    var q := duplicates + [intent, groups[j].0];
    var before := RecordGroups(a, duplicates, intent, groups[..n]);
    if j == n {
      RecordGroupsOthers(a, duplicates, intent, groups[..n], groups[j].0);
      LookupPut(before.report, q, Items(groups[j].1));
    } else {
      RecordGroupsEntry(a, duplicates, intent, groups[..n], j);
      ApartAt(duplicates + [intent, groups[n].0], q, |duplicates| + 1);
      LookupPutApart(before.report, duplicates + [intent, groups[n].0], q, Items(groups[n].1));
    }
  }

  lemma {:induction false} RecordGroupsOthers(a: Acc, duplicates: seq<string>, intent: string, groups: seq<(string, seq<string>)>, short: string)
    requires forall j :: 0 <= j < |groups| ==> groups[j].0 != short
    ensures var q := duplicates + [intent, short];
      Lookup(RecordGroups(a, duplicates, intent, groups).report, q) == Lookup(a.report, q)
  {
    if groups != [] {
      var n := |groups| - 1;
      var q := duplicates + [intent, short];
      RecordGroupsOthers(a, duplicates, intent, groups[..n], short);
      ApartAt(duplicates + [intent, groups[n].0], q, |duplicates| + 1);
      LookupPutApart(RecordGroups(a, duplicates, intent, groups[..n]).report, duplicates + [intent, groups[n].0], q, Items(groups[n].1));
    }
  }

  lemma {:induction false} RecordIntentsKeeps(a: Acc, duplicates: seq<string>, intents: Grouping, q: seq<string>)
    requires forall i :: 0 <= i < |intents| ==> Apart(duplicates + [intents[i].0], q)
    ensures Lookup(RecordIntents(a, duplicates, intents).report, q) == Lookup(a.report, q)
  {
    if intents != [] {
      var n := |intents| - 1;
      RecordIntentsKeeps(a, duplicates, intents[..n], q);
      RecordGroupsKeeps(RecordIntents(a, duplicates, intents[..n]), duplicates, intents[n].0, intents[n].1, q);
    }
  }

  lemma {:induction false} RecordIntentsEntry(a: Acc, duplicates: seq<string>, intents: Grouping, i: nat, j: nat)
    requires UniqueKeys(intents) && i < |intents| && UniqueKeys(intents[i].1) && j < |intents[i].1|
    ensures var group := intents[i].1[j];
      var q := duplicates + [intents[i].0, group.0];
      Lookup(RecordIntents(a, duplicates, intents).report, q) == if |group.1| > 1 then Items(group.1) else Lookup(a.report, q)
  {
    var n := |intents| - 1;
    var init := intents[..n];
    var q := duplicates + [intents[i].0, intents[i].1[j].0];
    if i == n {
      forall k | 0 <= k < |init|
        ensures Apart(duplicates + [init[k].0], q)
      {
        ApartAt(duplicates + [init[k].0], q, |duplicates|);
      }
      RecordIntentsKeeps(a, duplicates, init, q);
      RecordGroupsEntry(RecordIntents(a, duplicates, init), duplicates, intents[n].0, intents[n].1, j);
    } else {
      RecordIntentsEntry(a, duplicates, init, i, j);
      ApartAt(duplicates + [intents[n].0], q, |duplicates|);
      RecordGroupsKeeps(RecordIntents(a, duplicates, init), duplicates, intents[n].0, intents[n].1, q);
    }
  }

  lemma DuplicatesStepKeeps(a: Acc, file: DialogFile, q: seq<string>)
    requires |q| > 1 && q[0] == "utterances" && (q[1] != file.name || (|q| > 2 && q[2] != "duplicates"))
    ensures Lookup(DuplicatesStep(a, file).report, q) == Lookup(a.report, q)
  {
    var duplicates := ["utterances", file.name, "duplicates"];
    if q[1] != file.name {
      ApartAt(duplicates, q, 1);
    } else {
      ApartAt(duplicates, q, 2);
    }
    TouchKeeps(a.report, duplicates, q);
    var touched := Acc(Touch(a.report, duplicates), a.error);
    if file.content.Err? {
      ApartAt(["syntax", file.name], q, 0);
      LookupPutApart(touched.report, ["syntax", file.name], q, Text(file.content.error));
    }
    var intents := TemplateOf(file).shortUtterances;
    forall k | 0 <= k < |intents|
      ensures Apart(duplicates + [intents[k].0], q)
    {
      ApartExtend(duplicates, [intents[k].0], q);
    }
    RecordIntentsKeeps(SyntaxStep(touched, file), duplicates, intents, q);
  }

  /**
   * After searchDuplicateUtterances, a short form of an intent shared by
   * more than one utterance has those utterances recorded; otherwise the
   * entry is as it was.
   */
  lemma {:induction false} DuplicatesPassEntry(a: Acc, files: seq<DialogFile>, k: nat, i: nat, j: nat)
    requires UniqueNames(files) && k < |files|
    requires var intents := TemplateOf(files[k]).shortUtterances;
      UniqueKeys(intents) && i < |intents| && UniqueKeys(intents[i].1) && j < |intents[i].1|
    ensures var intent := TemplateOf(files[k]).shortUtterances[i];
      var q := DuplicatesPath(files[k].name, intent.0, intent.1[j].0);
      Lookup(DuplicatesPass(a, files).report, q) == if |intent.1[j].1| > 1 then Items(intent.1[j].1) else Lookup(a.report, q)
  {
    var n := |files| - 1;
    var file := files[k];
    var intent := TemplateOf(file).shortUtterances[i];
    var q := DuplicatesPath(file.name, intent.0, intent.1[j].0);
    var before := DuplicatesPass(a, files[..n]);
    if k == n {
      var duplicates := ["utterances", file.name, "duplicates"];
      assert q[..3] == duplicates;
      TouchKeeps(before.report, duplicates, q);
      assert file.content.Ok?;
      assert duplicates + [intent.0, intent.1[j].0] == q;
      RecordIntentsEntry(Acc(Touch(before.report, duplicates), before.error), duplicates, TemplateOf(file).shortUtterances, i, j);
      DuplicatesEarlierKeep(a, files[..n], q);
    } else {
      assert files[..n][k] == file;
      DuplicatesPassEntry(a, files[..n], k, i, j);
      DuplicatesStepKeeps(before, files[n], q);
    }
  }

  lemma {:induction false} DuplicatesEarlierKeep(a: Acc, files: seq<DialogFile>, q: seq<string>)
    requires |q| > 1 && q[0] == "utterances"
    requires forall k :: 0 <= k < |files| ==> files[k].name != q[1]
    ensures Lookup(DuplicatesPass(a, files).report, q) == Lookup(a.report, q)
  {
    if files != [] {
      var n := |files| - 1;
      DuplicatesEarlierKeep(a, files[..n], q);
      DuplicatesStepKeeps(DuplicatesPass(a, files[..n]), files[n], q);
    }
  }

  // ---------------------------------------------------------------- validate

  /** The state after validate: schema, slots, duplicates when verbose, then intent slots. */
  function ValidateSpec(a: Acc, verbosity: int, files: seq<DialogFile>, modules: seq<ModuleTemplates>, builtins: set<string>, norm: string -> string): Acc
  {
    var checked := ValidateSlotsSpec(SchemaPass(a, files), files);
    var searched := if verbosity != 0 then DuplicatesPass(checked, files) else checked;
    ValidateIntentSlotsSpec(searched, files, modules, builtins, norm)
  }

  lemma {:induction false} LoadAllSlotsKeeps(a: Acc, files: seq<DialogFile>, modules: seq<ModuleTemplates>, q: seq<string>)
    requires |q| > 0 && q[0] != "syntax"
    ensures Lookup(LoadAllSlots(a, files, modules).report, q) == Lookup(a.report, q)
  {
    if files != [] {
      LoadAllSlotsKeeps(a, files[..|files| - 1], modules, q);
      SyntaxPassKeeps(LoadAllSlots(a, files[..|files| - 1], modules), LangFiles(files[|files| - 1].name, modules), q);
    }
  }

  /** Some file that getAllSlots reads for this language does not parse. */
  predicate BrokenLanguage(language: string, modules: seq<ModuleTemplates>)
  {
    exists j :: 0 <= j < |LangFiles(language, modules)| && LangFiles(language, modules)[j].content.Err?
  }

  lemma {:induction false} LoadAllSlotsError(a: Acc, files: seq<DialogFile>, modules: seq<ModuleTemplates>)
    ensures LoadAllSlots(a, files, modules).error <==>
      a.error || exists k :: 0 <= k < |files| && BrokenLanguage(files[k].name, modules)
  {
    if files != [] {
      var init := files[..|files| - 1];
      var last := files[|files| - 1].name;
      LoadAllSlotsError(a, init, modules);
      SyntaxPassError(LoadAllSlots(a, init, modules), LangFiles(last, modules));
      assert BrokenLanguage(last, modules) <==> exists j :: 0 <= j < |LangFiles(last, modules)| && LangFiles(last, modules)[j].content.Err?;
      assert (exists k :: 0 <= k < |files| && BrokenLanguage(files[k].name, modules)) <==>
             (exists k :: 0 <= k < |init| && BrokenLanguage(init[k].name, modules)) || BrokenLanguage(last, modules) by {
        assert forall k :: 0 <= k < |init| ==> init[k] == files[k];
      }
    }
  }

  /** Paths under a duplicates entry are not touched by the intent-slot pass. */
  lemma KeptDuplicates(q: seq<string>, name: string, intent: string)
    requires |q| > 2 && q[0] == "utterances" && q[2] == "duplicates"
    ensures KeptByCheckSlot(q, name, intent)
  {
    var k := if q[1] != name then 1 else 2;
    ApartAt(["utterances", name, "missingSlots"], q, k);
    ApartAt(MissingSlotsPath(name, intent), q, k);
    ApartAt(["utterances", name, "missingSlotValue", intent], q, k);
  }

  lemma {:induction false} IntentSlotsPassKeepsDuplicates(a: Acc, files: seq<DialogFile>, modules: seq<ModuleTemplates>,
                                                          builtins: set<string>, norm: string -> string, q: seq<string>)
    requires |q| > 2 && q[0] == "utterances" && q[2] == "duplicates"
    ensures Lookup(IntentSlotsPass(a, files, modules, builtins, norm).report, q) == Lookup(a.report, q)
  {
    if files != [] {
      var file := files[|files| - 1];
      var before := IntentSlotsPass(a, files[..|files| - 1], modules, builtins, norm);
      IntentSlotsPassKeepsDuplicates(a, files[..|files| - 1], modules, builtins, norm, q);
      if q[1] != file.name {
        ApartAt(["utterances", file.name], q, 1);
      } else {
        assert q[..2] == ["utterances", file.name];
      }
      TouchKeeps(before.report, ["utterances", file.name], q);
      var touched := Acc(Touch(before.report, ["utterances", file.name]), before.error);
      SyntaxStepKeeps(touched, file, q);
      var intents := TemplateOf(file).utteranceSlots;
      forall k | 0 <= k < |intents|
        ensures KeptByCheckSlot(q, file.name, intents[k].0)
      {
        KeptDuplicates(q, file.name, intents[k].0);
      }
      CheckIntentsKeeps(SyntaxStep(touched, file), file.name, intents, AllSlots(file.name, modules), builtins, norm, q);
    }
  }

  /** The checks that precede the intent-slot pass leave its entries as they were. */
  lemma BeforeIntentSlotsKeep(a: Acc, verbosity: int, files: seq<DialogFile>, modules: seq<ModuleTemplates>, q: seq<string>)
    requires |q| > 2 && q[0] == "utterances" && q[2] != "duplicates"
    ensures var checked := ValidateSlotsSpec(SchemaPass(a, files), files);
      var searched := if verbosity != 0 then DuplicatesPass(checked, files) else checked;
      Lookup(LoadAllSlots(searched, files, modules).report, q) == Lookup(a.report, q)
  {
    var schema := SchemaPass(a, files);
    SchemaPassKeeps(a, files, q);
    SyntaxPassKeeps(schema, files, q);
    SlotsPassKeeps(SyntaxPass(schema, files), files, UnionNames(files), q);
    var checked := ValidateSlotsSpec(schema, files);
    if verbosity != 0 {
      DuplicatesEarlierKeepOrOther(checked, files, q);
    }
    var searched := if verbosity != 0 then DuplicatesPass(checked, files) else checked;
    LoadAllSlotsKeeps(searched, files, modules, q);
  }

  lemma {:induction false} DuplicatesEarlierKeepOrOther(a: Acc, files: seq<DialogFile>, q: seq<string>)
    requires |q| > 2 && q[0] == "utterances" && q[2] != "duplicates"
    ensures Lookup(DuplicatesPass(a, files).report, q) == Lookup(a.report, q)
  {
    if files != [] {
      DuplicatesEarlierKeepOrOther(a, files[..|files| - 1], q);
      DuplicatesStepKeeps(DuplicatesPass(a, files[..|files| - 1]), files[|files| - 1], q);
    }
  }

  /**
   * What validate leaves for an intent's unknown slots: the list of them,
   * in order, after whatever the entry held when validate began.
   */
  lemma ValidateMissingSlots(a: Acc, verbosity: int, files: seq<DialogFile>, modules: seq<ModuleTemplates>,
                             builtins: set<string>, norm: string -> string, k: nat, i: nat)
    requires UniqueNames(files) && k < |files|
    requires UniqueKeys(TemplateOf(files[k]).utteranceSlots) && i < |TemplateOf(files[k]).utteranceSlots|
    ensures var intent := TemplateOf(files[k]).utteranceSlots[i];
      var q := MissingSlotsPath(files[k].name, intent.0);
      Lookup(ValidateSpec(a, verbosity, files, modules, builtins, norm).report, q)
        == Appended(Lookup(a.report, q), UnknownSlots(intent.1, AllSlots(files[k].name, modules), builtins))
  {
    var intent := TemplateOf(files[k]).utteranceSlots[i];
    var q := MissingSlotsPath(files[k].name, intent.0);
    BeforeIntentSlotsKeep(a, verbosity, files, modules, q);
    var checked := ValidateSlotsSpec(SchemaPass(a, files), files);
    var searched := if verbosity != 0 then DuplicatesPass(checked, files) else checked;
    IntentSlotsPassMissing(LoadAllSlots(searched, files, modules), files, modules, builtins, norm, k, i);
  }

  /** What validate leaves for a known slot's unknown values. */
  lemma ValidateMissingValues(a: Acc, verbosity: int, files: seq<DialogFile>, modules: seq<ModuleTemplates>,
                              builtins: set<string>, norm: string -> string, k: nat, i: nat, j: nat)
    requires UniqueNames(files) && k < |files|
    requires var intents := TemplateOf(files[k]).utteranceSlots;
      UniqueKeys(intents) && i < |intents| && UniqueKeys(intents[i].1) && j < |intents[i].1|
    ensures var intent := TemplateOf(files[k]).utteranceSlots[i];
      var q := MissingValuesPath(files[k].name, intent.0, intent.1[j].0);
      Lookup(ValidateSpec(a, verbosity, files, modules, builtins, norm).report, q)
        == ValuesEntry(Lookup(a.report, q), intent.1[j].0, intent.1[j].1, AllSlots(files[k].name, modules), builtins, norm)
  {
    var intent := TemplateOf(files[k]).utteranceSlots[i];
    var q := MissingValuesPath(files[k].name, intent.0, intent.1[j].0);
    BeforeIntentSlotsKeep(a, verbosity, files, modules, q);
    var checked := ValidateSlotsSpec(SchemaPass(a, files), files);
    var searched := if verbosity != 0 then DuplicatesPass(checked, files) else checked;
    IntentSlotsPassValues(LoadAllSlots(searched, files, modules), files, modules, builtins, norm, k, i, j);
  }

  /** Duplicates are searched for, and recorded, only with a non-zero verbosity. */
  lemma ValidateDuplicates(a: Acc, verbosity: int, files: seq<DialogFile>, modules: seq<ModuleTemplates>,
                           builtins: set<string>, norm: string -> string, k: nat, i: nat, j: nat)
    requires UniqueNames(files) && k < |files|
    requires var intents := TemplateOf(files[k]).shortUtterances;
      UniqueKeys(intents) && i < |intents| && UniqueKeys(intents[i].1) && j < |intents[i].1|
    ensures var group := TemplateOf(files[k]).shortUtterances[i].1[j];
      var q := DuplicatesPath(files[k].name, TemplateOf(files[k]).shortUtterances[i].0, group.0);
      Lookup(ValidateSpec(a, verbosity, files, modules, builtins, norm).report, q)
        == if verbosity != 0 && |group.1| > 1 then Items(group.1) else Lookup(a.report, q)
  {
    var intent := TemplateOf(files[k]).shortUtterances[i];
    var q := DuplicatesPath(files[k].name, intent.0, intent.1[j].0);
    var schema := SchemaPass(a, files);
    SchemaPassKeeps(a, files, q);
    SyntaxPassKeeps(schema, files, q);
    SlotsPassKeeps(SyntaxPass(schema, files), files, UnionNames(files), q);
    var checked := ValidateSlotsSpec(schema, files);
    if verbosity != 0 {
      DuplicatesPassEntry(checked, files, k, i, j);
    }
    var searched := if verbosity != 0 then DuplicatesPass(checked, files) else checked;
    LoadAllSlotsKeeps(searched, files, modules, q);
    IntentSlotsPassKeepsDuplicates(LoadAllSlots(searched, files, modules), files, modules, builtins, norm, q);
  }

  /** Everything validate can hold against one file of the module. */
  predicate FileProblem(files: seq<DialogFile>, k: nat, verbosity: int, modules: seq<ModuleTemplates>, builtins: set<string>, norm: string -> string)
    requires k < |files|
  {
    || files[k].content.Err?
    || files[k].schemaErrors != []
    || SlotProblem(files, k)
    || (verbosity != 0 && IntentsDuplicate(TemplateOf(files[k]).shortUtterances))
    || BrokenLanguage(files[k].name, modules)
    || FileFlagged(files[k], AllSlots(files[k].name, modules), builtins, norm)
  }

  /** validate answers true exactly when the flag was already raised or some file has a problem. */
  lemma ValidateFlag(a: Acc, verbosity: int, files: seq<DialogFile>, modules: seq<ModuleTemplates>, builtins: set<string>, norm: string -> string)
    ensures ValidateSpec(a, verbosity, files, modules, builtins, norm).error <==>
      a.error || exists k :: 0 <= k < |files| && FileProblem(files, k, verbosity, modules, builtins, norm)
  {
    ValidateFlagSound(a, verbosity, files, modules, builtins, norm);
    ValidateFlagComplete(a, verbosity, files, modules, builtins, norm);
  }

  /** A flag validate raises points at a file with a problem. */
  lemma ValidateFlagSound(a: Acc, verbosity: int, files: seq<DialogFile>, modules: seq<ModuleTemplates>, builtins: set<string>, norm: string -> string)
    ensures ValidateSpec(a, verbosity, files, modules, builtins, norm).error && !a.error ==>
      exists k :: 0 <= k < |files| && FileProblem(files, k, verbosity, modules, builtins, norm)
  {
    var schema := SchemaPass(a, files);
    var checked := ValidateSlotsSpec(schema, files);
    var searched := if verbosity != 0 then DuplicatesPass(checked, files) else checked;
    var loaded := LoadAllSlots(searched, files, modules);
    var r := IntentSlotsPass(loaded, files, modules, builtins, norm);
    SchemaPassError(a, files);
    ValidateSlotsError(schema, files);
    DuplicatesPassError(checked, files);
    LoadAllSlotsError(searched, files, modules);
    IntentSlotsPassError(loaded, files, modules, builtins, norm);
    if r.error && !a.error {
      if schema.error {
        var k :| 0 <= k < |files| && (files[k].content.Err? || files[k].schemaErrors != []);
        assert FileProblem(files, k, verbosity, modules, builtins, norm);
      } else if checked.error {
        var k :| 0 <= k < |files| && SlotProblem(files, k);
        assert FileProblem(files, k, verbosity, modules, builtins, norm);
      } else if searched.error {
        var k :| 0 <= k < |files| && (files[k].content.Err? || IntentsDuplicate(TemplateOf(files[k]).shortUtterances));
        assert FileProblem(files, k, verbosity, modules, builtins, norm);
      } else if loaded.error {
        var k :| 0 <= k < |files| && BrokenLanguage(files[k].name, modules);
        assert FileProblem(files, k, verbosity, modules, builtins, norm);
      } else {
        var k :| 0 <= k < |files| && FileFlagged(files[k], AllSlots(files[k].name, modules), builtins, norm);
        assert FileProblem(files, k, verbosity, modules, builtins, norm);
      }
    }
  }

  /** A flag already raised stays raised, and a file with a problem makes validate raise it. */
  lemma ValidateFlagComplete(a: Acc, verbosity: int, files: seq<DialogFile>, modules: seq<ModuleTemplates>, builtins: set<string>, norm: string -> string)
    ensures (a.error || exists k :: 0 <= k < |files| && FileProblem(files, k, verbosity, modules, builtins, norm)) ==>
      ValidateSpec(a, verbosity, files, modules, builtins, norm).error
  {
    var schema := SchemaPass(a, files);
    var checked := ValidateSlotsSpec(schema, files);
    var searched := if verbosity != 0 then DuplicatesPass(checked, files) else checked;
    var loaded := LoadAllSlots(searched, files, modules);
    var r := IntentSlotsPass(loaded, files, modules, builtins, norm);
    SchemaPassError(a, files);
    ValidateSlotsError(schema, files);
    DuplicatesPassError(checked, files);
    LoadAllSlotsError(searched, files, modules);
    IntentSlotsPassError(loaded, files, modules, builtins, norm);
    if exists k :: 0 <= k < |files| && FileProblem(files, k, verbosity, modules, builtins, norm) {
      var k :| 0 <= k < |files| && FileProblem(files, k, verbosity, modules, builtins, norm);
      if files[k].content.Err? || files[k].schemaErrors != [] {
        assert schema.error;
      } else if SlotProblem(files, k) {
        assert checked.error;
      } else if verbosity != 0 && IntentsDuplicate(TemplateOf(files[k]).shortUtterances) {
        assert searched.error;
      } else if BrokenLanguage(files[k].name, modules) {
        assert loaded.error;
      }
    }
  }

  // ------------------------------------------------------ getRequiredModules

  /** What an installer file gives getRequiredModules. */
  datatype Installer =
    | Falsy                        // did not parse, or parsed to an empty dict
    | NoConditions                 // a non-empty dict without 'conditions'
    | NoModules                    // 'conditions' without 'module'
    | Requires(names: seq<string>) // the 'name' of each entry of conditions.module

  /**
   * The module tree on disk: the published module directories in the order
   * the glob lists them, and each module's installer files in glob order.
   */
  datatype Disk = Disk(published: seq<seq<string>>, installers: map<seq<string>, seq<Installer>>)

  function InstallersOf(disk: Disk, dir: seq<string>): seq<Installer>
  {
    if dir in disk.installers then disk.installers[dir] else []
  }

  /** The names a sequence of installers requires, in order. */
  function NamesOf(installers: seq<Installer>): seq<string>
  {
    if installers == [] then []
    else (if installers[0].Requires? then installers[0].names else []) + NamesOf(installers[1..])
  }

  function Deps(disk: Disk, dir: seq<string>): seq<string>
  {
    NamesOf(InstallersOf(disk, dir))
  }

  /** `searchModule`: the first published module directory with that name. */
  function SearchModule(published: seq<seq<string>>, name: string): (r: Option<seq<string>>)
    ensures r.Some? ==> r.value in published && Name(r.value) == name
    ensures r.None? ==> forall i :: 0 <= i < |published| ==> Name(published[i]) != name
  {
    if published == [] then None
    else if Name(published[0]) == name then Some(published[0])
    else SearchModule(published[1..], name)
  }

  datatype Crash = RecursionError | KeyError

  /**
   * `getRequiredModules(modulePath)` as written, with `fuel` standing for the
   * interpreter's recursion limit. `start == None` stands for the call
   * without a path (and for a recursive call with the `None` of a module
   * that was not found): it starts from the validated module `root`.
   */
  function Required(disk: Disk, root: seq<string>, fuel: nat, start: Option<seq<string>>): Result<set<seq<string>>, Crash>
    decreases fuel, 2, 0
  {
    var dir := if start.Some? then start.value else root;
    FromInstallers(disk, root, fuel, InstallersOf(disk, dir), {dir})
  }

  function FromInstallers(disk: Disk, root: seq<string>, fuel: nat, installers: seq<Installer>, modules: set<seq<string>>): Result<set<seq<string>>, Crash>
    decreases fuel, 1, |installers|
  {
    if installers == [] then Ok(modules)
    else
      match installers[0]
      case Falsy => FromInstallers(disk, root, fuel, installers[1..], modules)
      case NoModules => FromInstallers(disk, root, fuel, installers[1..], modules)
      case NoConditions => Err(KeyError)
      case Requires(names) =>
        var r := FromNames(disk, root, fuel, names, modules);
        if r.Err? then r else FromInstallers(disk, root, fuel, installers[1..], r.value)
  }

  function FromNames(disk: Disk, root: seq<string>, fuel: nat, names: seq<string>, modules: set<seq<string>>): Result<set<seq<string>>, Crash>
    decreases fuel, 0, |names|
  {
    if names == [] then Ok(modules)
    else if names[0] == Name(root) then FromNames(disk, root, fuel, names[1..], modules)
    else if fuel == 0 then Err(RecursionError)
    else
      var path := SearchModule(disk.published, names[0]);
      var sub := Required(disk, root, fuel - 1, path);
      if sub.Err? then sub
      else FromNames(disk, root, fuel, names[1..], modules + (if path.Some? then {path.value} else {}) + sub.value)
  }

  /** Every published dependency of the module, other than the root's own name, is in the set. */
  predicate Expanded(disk: Disk, root: seq<string>, dir: seq<string>, t: set<seq<string>>)
  {
    forall n :: n in Deps(disk, dir) && n != Name(root) && SearchModule(disk.published, n).Some?
      ==> SearchModule(disk.published, n).value in t
  }

  /** A set of modules closed under the published dependencies. */
  predicate ClosedUnder(disk: Disk, root: seq<string>, t: set<seq<string>>)
  {
    forall p :: p in t ==> Expanded(disk, root, p, t)
  }

  lemma {:induction false} FromNamesGrows(disk: Disk, root: seq<string>, fuel: nat, names: seq<string>, modules: set<seq<string>>)
    requires FromNames(disk, root, fuel, names, modules).Ok?
    ensures modules <= FromNames(disk, root, fuel, names, modules).value
    decreases |names|
  {
    if names != [] && names[0] == Name(root) {
      FromNamesGrows(disk, root, fuel, names[1..], modules);
    } else if names != [] {
      var path := SearchModule(disk.published, names[0]);
      var sub := Required(disk, root, fuel - 1, path);
      FromNamesGrows(disk, root, fuel, names[1..], modules + (if path.Some? then {path.value} else {}) + sub.value);
    }
  }

  lemma {:induction false} FromInstallersGrows(disk: Disk, root: seq<string>, fuel: nat, installers: seq<Installer>, modules: set<seq<string>>)
    requires FromInstallers(disk, root, fuel, installers, modules).Ok?
    ensures modules <= FromInstallers(disk, root, fuel, installers, modules).value
    decreases |installers|
  {
    if installers != [] {
      if installers[0].Requires? {
        var r := FromNames(disk, root, fuel, installers[0].names, modules);
        FromNamesGrows(disk, root, fuel, installers[0].names, modules);
        FromInstallersGrows(disk, root, fuel, installers[1..], r.value);
      } else {
        FromInstallersGrows(disk, root, fuel, installers[1..], modules);
      }
    }
  }

  /** A result, when there is one, holds the module it started from. */
  lemma RequiredContainsStart(disk: Disk, root: seq<string>, fuel: nat, start: Option<seq<string>>)
    requires Required(disk, root, fuel, start).Ok?
    ensures (if start.Some? then start.value else root) in Required(disk, root, fuel, start).value
  {
    var dir := if start.Some? then start.value else root;
    FromInstallersGrows(disk, root, fuel, InstallersOf(disk, dir), {dir});
  }

  /**
   * A result, when there is one, lies within every set that holds the root
   * and the start and is closed under the published dependencies.
   */
  lemma {:induction false} RequiredWithin(disk: Disk, root: seq<string>, fuel: nat, start: Option<seq<string>>, t: set<seq<string>>)
    requires Required(disk, root, fuel, start).Ok?
    requires root in t && (start.Some? ==> start.value in t) && ClosedUnder(disk, root, t)
    ensures Required(disk, root, fuel, start).value <= t
    decreases fuel, 2, 0
  {
    var dir := if start.Some? then start.value else root;
    FromInstallersWithin(disk, root, fuel, InstallersOf(disk, dir), {dir}, t, dir);
  }

  lemma {:induction false} FromInstallersWithin(disk: Disk, root: seq<string>, fuel: nat, installers: seq<Installer>,
                                                modules: set<seq<string>>, t: set<seq<string>>, dir: seq<string>)
    requires FromInstallers(disk, root, fuel, installers, modules).Ok?
    requires root in t && modules <= t && ClosedUnder(disk, root, t)
    requires dir in t && forall n :: n in NamesOf(installers) ==> n in Deps(disk, dir)
    ensures FromInstallers(disk, root, fuel, installers, modules).value <= t
    decreases fuel, 1, |installers|
  {
    if installers != [] {
      var rest := NamesOf(installers[1..]);
      assert NamesOf(installers) == (if installers[0].Requires? then installers[0].names else []) + rest;
      if installers[0].Requires? {
        var r := FromNames(disk, root, fuel, installers[0].names, modules);
        FromNamesWithin(disk, root, fuel, installers[0].names, modules, t, dir);
        FromInstallersWithin(disk, root, fuel, installers[1..], r.value, t, dir);
      } else {
        FromInstallersWithin(disk, root, fuel, installers[1..], modules, t, dir);
      }
    }
  }

  lemma {:induction false} FromNamesWithin(disk: Disk, root: seq<string>, fuel: nat, names: seq<string>,
                                           modules: set<seq<string>>, t: set<seq<string>>, dir: seq<string>)
    requires FromNames(disk, root, fuel, names, modules).Ok?
    requires root in t && modules <= t && ClosedUnder(disk, root, t)
    requires dir in t && forall n :: n in names ==> n in Deps(disk, dir)
    ensures FromNames(disk, root, fuel, names, modules).value <= t
    decreases fuel, 0, |names|
  {
    if names != [] {
      if names[0] == Name(root) {
        FromNamesWithin(disk, root, fuel, names[1..], modules, t, dir);
      } else {
        var path := SearchModule(disk.published, names[0]);
        var sub := Required(disk, root, fuel - 1, path);
        RequiredWithin(disk, root, fuel - 1, path, t);
        FromNamesWithin(disk, root, fuel, names[1..], modules + (if path.Some? then {path.value} else {}) + sub.value, t, dir);
      }
    }
  }

  /** Every module of the set but `dir` has its published dependencies in the set. */
  predicate ClosedBut(disk: Disk, root: seq<string>, dir: seq<string>, t: set<seq<string>>)
  {
    forall p :: p in t && p != dir ==> Expanded(disk, root, p, t)
  }

  /** A result, when there is one, is closed under the published dependencies. */
  lemma {:induction false} RequiredClosed(disk: Disk, root: seq<string>, fuel: nat, start: Option<seq<string>>)
    requires Required(disk, root, fuel, start).Ok?
    ensures ClosedUnder(disk, root, Required(disk, root, fuel, start).value)
    decreases fuel, 2, 0
  {
    var dir := if start.Some? then start.value else root;
    var r := Required(disk, root, fuel, start).value;
    FromInstallersClosed(disk, root, fuel, InstallersOf(disk, dir), {dir}, dir);
    FromInstallersGrows(disk, root, fuel, InstallersOf(disk, dir), {dir});
    assert Expanded(disk, root, dir, r);
  }

  lemma {:induction false} FromInstallersClosed(disk: Disk, root: seq<string>, fuel: nat, installers: seq<Installer>,
                                                modules: set<seq<string>>, dir: seq<string>)
    requires FromInstallers(disk, root, fuel, installers, modules).Ok?
    requires ClosedBut(disk, root, dir, modules)
    ensures ClosedBut(disk, root, dir, FromInstallers(disk, root, fuel, installers, modules).value)
    ensures forall n :: n in NamesOf(installers) ==> DepFound(disk, root, n, FromInstallers(disk, root, fuel, installers, modules).value)
    decreases fuel, 1, |installers|
  {
    if installers != [] {
      var result := FromInstallers(disk, root, fuel, installers, modules).value;
      var first := if installers[0].Requires? then installers[0].names else [];
      assert NamesOf(installers) == first + NamesOf(installers[1..]);
      if installers[0].Requires? {
        var r := FromNames(disk, root, fuel, first, modules).value;
        FromNamesClosed(disk, root, fuel, first, modules, dir);
        FromInstallersClosed(disk, root, fuel, installers[1..], r, dir);
        FromInstallersGrows(disk, root, fuel, installers[1..], r);
        assert forall n :: n in first ==> DepFound(disk, root, n, result);
      } else {
        FromInstallersClosed(disk, root, fuel, installers[1..], modules, dir);
      }
    }
  }

  lemma {:induction false} FromNamesClosed(disk: Disk, root: seq<string>, fuel: nat, names: seq<string>,
                                           modules: set<seq<string>>, dir: seq<string>)
    requires FromNames(disk, root, fuel, names, modules).Ok?
    requires ClosedBut(disk, root, dir, modules)
    ensures ClosedBut(disk, root, dir, FromNames(disk, root, fuel, names, modules).value)
    ensures forall n :: n in names ==> DepFound(disk, root, n, FromNames(disk, root, fuel, names, modules).value)
    decreases fuel, 0, |names|
  {
    if names != [] {
      if names[0] == Name(root) {
        FromNamesClosed(disk, root, fuel, names[1..], modules, dir);
      } else {
        var path := SearchModule(disk.published, names[0]);
        var sub := Required(disk, root, fuel - 1, path).value;
        var next := modules + (if path.Some? then {path.value} else {}) + sub;
        RequiredClosed(disk, root, fuel - 1, path);
        RequiredContainsStart(disk, root, fuel - 1, path);
        forall p | p in next && p != dir
          ensures Expanded(disk, root, p, next)
        {
          if p in sub {
            ExpandedGrows(disk, root, p, sub, next);
          } else {
            ExpandedGrows(disk, root, p, modules, next);
          }
        }
        FromNamesClosed(disk, root, fuel, names[1..], next, dir);
        FromNamesGrows(disk, root, fuel, names[1..], next);
      }
    }
  }

  /**
   * When getRequiredModules returns from the validated module, its result is
   * the corrected closure: the least set that holds the module and is closed
   * under the published dependencies.
   */
  lemma RequiredIsClosure(disk: Disk, root: seq<string>, fuel: nat)
    requires Required(disk, root, fuel, None).Ok?
    ensures root in Required(disk, root, fuel, None).value
    ensures ClosedUnder(disk, root, Required(disk, root, fuel, None).value)
    ensures forall t :: root in t && ClosedUnder(disk, root, t) ==> Required(disk, root, fuel, None).value <= t
  {
    RequiredContainsStart(disk, root, fuel, None);
    RequiredClosed(disk, root, fuel, None);
    forall t | root in t && ClosedUnder(disk, root, t)
      ensures Required(disk, root, fuel, None).value <= t
    {
      RequiredWithin(disk, root, fuel, None, t);
    }
  }

  /**
   * A dependency whose own search fails one level down, once reached, makes
   * the loop fail (at the recursion limit it fails at once).
   */
  lemma {:induction false} FromNamesStuck(disk: Disk, root: seq<string>, fuel: nat, names: seq<string>, modules: set<seq<string>>, stuck: string)
    requires stuck in names && stuck != Name(root)
    requires fuel > 0 ==> Required(disk, root, fuel - 1, SearchModule(disk.published, stuck)).Err?
    ensures FromNames(disk, root, fuel, names, modules).Err?
    decreases |names|
  {
    if names[0] == Name(root) {
      FromNamesStuck(disk, root, fuel, names[1..], modules, stuck);
    } else if fuel > 0 && names[0] != stuck {
      var path := SearchModule(disk.published, names[0]);
      var sub := Required(disk, root, fuel - 1, path);
      if sub.Ok? {
        FromNamesStuck(disk, root, fuel, names[1..], modules + (if path.Some? then {path.value} else {}) + sub.value, stuck);
      }
    }
  }

  lemma {:induction false} FromInstallersStuck(disk: Disk, root: seq<string>, fuel: nat, installers: seq<Installer>, modules: set<seq<string>>, stuck: string)
    requires stuck in NamesOf(installers) && stuck != Name(root)
    requires fuel > 0 ==> Required(disk, root, fuel - 1, SearchModule(disk.published, stuck)).Err?
    ensures FromInstallers(disk, root, fuel, installers, modules).Err?
    decreases |installers|
  {
    var first := if installers[0].Requires? then installers[0].names else [];
    assert NamesOf(installers) == first + NamesOf(installers[1..]);
    if installers[0].Requires? {
      if stuck in first {
        FromNamesStuck(disk, root, fuel, first, modules, stuck);
      } else {
        var r := FromNames(disk, root, fuel, first, modules);
        if r.Ok? {
          FromInstallersStuck(disk, root, fuel, installers[1..], r.value, stuck);
        }
      }
    } else if !installers[0].NoConditions? {
      FromInstallersStuck(disk, root, fuel, installers[1..], modules, stuck);
    }
  }

  /**
   * As written, a dependency of the validated module that is not among the
   * published modules makes getRequiredModules call itself without a path,
   * which starts over from the validated module: no recursion limit is
   * enough, so it never returns a set.
   */
  lemma {:induction false} UnpublishedDependencyNeverReturns(disk: Disk, root: seq<string>, fuel: nat, missing: string)
    requires missing in Deps(disk, root) && missing != Name(root) && SearchModule(disk.published, missing).None?
    ensures Required(disk, root, fuel, None).Err?
  {
    if fuel > 0 {
      UnpublishedDependencyNeverReturns(disk, root, fuel - 1, missing);
    }
    FromInstallersStuck(disk, root, fuel, InstallersOf(disk, root), {root}, missing);
  }

  /**
   * As written, two published modules other than the validated one that
   * require each other make getRequiredModules recurse between them: no
   * recursion limit is enough, from either of them or from a validated
   * module that requires one of them.
   */
  lemma {:induction false} CycleNeverReturns(disk: Disk, root: seq<string>, fuel: nat, a: string, b: string)
    requires a != Name(root) && b != Name(root)
    requires SearchModule(disk.published, a).Some? && SearchModule(disk.published, b).Some?
    requires b in Deps(disk, SearchModule(disk.published, a).value)
    requires a in Deps(disk, SearchModule(disk.published, b).value)
    ensures Required(disk, root, fuel, SearchModule(disk.published, a)).Err?
    ensures Required(disk, root, fuel, SearchModule(disk.published, b)).Err?
    ensures a in Deps(disk, root) ==> Required(disk, root, fuel, None).Err?
  {
    if fuel > 0 {
      CycleNeverReturns(disk, root, fuel - 1, a, b);
    }
    var pa := SearchModule(disk.published, a).value;
    var pb := SearchModule(disk.published, b).value;
    FromInstallersStuck(disk, root, fuel, InstallersOf(disk, pa), {pa}, b);
    FromInstallersStuck(disk, root, fuel, InstallersOf(disk, pb), {pb}, a);
    if a in Deps(disk, root) {
      FromInstallersStuck(disk, root, fuel, InstallersOf(disk, root), {root}, a);
    }
  }

  /** The example: a module whose installer requires a module nobody published. */
  lemma UnpublishedDependencyExample(fuel: nat)
    ensures Required(Disk([], map[["ProjectAlice", "Telemetry"] := [Requires(["AliceSatellite"])]]), ["ProjectAlice", "Telemetry"], fuel, None).Err?
  {
    var disk := Disk([], map[["ProjectAlice", "Telemetry"] := [Requires(["AliceSatellite"])]]);
    assert Deps(disk, ["ProjectAlice", "Telemetry"]) == ["AliceSatellite"] + NamesOf([]);
    UnpublishedDependencyNeverReturns(disk, ["ProjectAlice", "Telemetry"], fuel, "AliceSatellite");
  }

  /**
   * The dependency closure getRequiredModules is meant to compute: the
   * validated module and, transitively, every published module its
   * installers require; names that are not published are skipped and every
   * module is expanded once. An installer without 'conditions' contributes
   * nothing here.
   */
  method RequiredModules(disk: Disk, root: seq<string>) returns (modules: set<seq<string>>)
    ensures root in modules && ClosedUnder(disk, root, modules)
    ensures forall t :: root in t && ClosedUnder(disk, root, t) ==> modules <= t
  {
    ghost var universe := {root} + set i | 0 <= i < |disk.published| :: disk.published[i];
    modules := {root};
    var todo := [root];
    while todo != []
      invariant root in modules && modules <= universe
      invariant forall x :: x in todo ==> x in modules
      invariant forall x :: x in modules && x !in todo ==> Expanded(disk, root, x, modules)
      invariant forall t :: root in t && ClosedUnder(disk, root, t) ==> modules <= t
      decreases universe - modules, |todo|
    {
      var current := todo[0];
      ghost var before := modules;
      ghost var previous := todo;
      todo := todo[1..];
      modules, todo := Expand(disk, root, current, modules, todo);
      forall x | x in modules && x !in todo
        ensures Expanded(disk, root, x, modules)
      {
        if x != current {
          assert x in before && x !in previous;
          ExpandedGrows(disk, root, x, before, modules);
        }
      }
      if modules != before {
        var added :| added in modules && added !in before;
        assert added in universe - before && added !in universe - modules;
      }
    }
  }

  lemma ExpandedGrows(disk: Disk, root: seq<string>, dir: seq<string>, m: set<seq<string>>, bigger: set<seq<string>>)
    requires Expanded(disk, root, dir, m) && m <= bigger
    ensures Expanded(disk, root, dir, bigger)
  {
  }

  /** The body of the worklist loop: add the not yet seen published dependencies of one module. */
  method Expand(disk: Disk, root: seq<string>, current: seq<string>, modules: set<seq<string>>, todo: seq<seq<string>>)
    returns (grown: set<seq<string>>, queue: seq<seq<string>>)
    ensures modules <= grown && Expanded(disk, root, current, grown)
    ensures forall x :: x in grown && x !in modules ==> x in disk.published && x in queue
    ensures forall x :: x in queue ==> x in todo || x in grown
    ensures forall x :: x in todo ==> x in queue
    ensures grown == modules ==> queue == todo
    ensures forall t :: current in t && modules <= t && ClosedUnder(disk, root, t) ==> grown <= t
  {
    grown, queue := modules, todo;
    var deps := Deps(disk, current);
    var j := 0;
    while j < |deps|
      invariant 0 <= j <= |deps|
      invariant modules <= grown
      invariant forall k :: 0 <= k < j ==> DepFound(disk, root, deps[k], grown)
      invariant forall x :: x in grown && x !in modules ==> x in disk.published && x in queue
      invariant forall x :: x in queue ==> x in todo || x in grown
      invariant forall x :: x in todo ==> x in queue
      invariant grown == modules ==> queue == todo
      invariant forall t :: current in t && modules <= t && ClosedUnder(disk, root, t) ==> grown <= t
    {
      var name := deps[j];
      if name != Name(root) {
        var path := SearchModule(disk.published, name);
        if path.Some? && path.value !in grown {
          grown := grown + {path.value};
          queue := queue + [path.value];
        }
      }
      j := j + 1;
    }
  }

  predicate DepFound(disk: Disk, root: seq<string>, name: string, m: set<seq<string>>)
  {
    name != Name(root) && SearchModule(disk.published, name).Some? ==> SearchModule(disk.published, name).value in m
  }

  // ---------------------------------------------------- getAllSlots' modules

  /**
   * The module set getAllSlots reads: the required modules of the validated
   * module `root` and the core modules, or the crash of getRequiredModules.
   */
  function SlotModules(disk: Disk, root: seq<string>, fuel: nat, core: set<seq<string>>): (r: Result<set<seq<string>>, Crash>)
    ensures r.Ok? <==> Required(disk, root, fuel, None).Ok?
    ensures r.Ok? ==> root in r.value && core <= r.value
    ensures r.Ok? ==> forall p :: p in r.value && p !in core ==> Expanded(disk, root, p, r.value)
    ensures r.Ok? ==> forall t :: root in t && ClosedUnder(disk, root, t) ==> r.value <= t + core
  {
    match Required(disk, root, fuel, None)
    case Err(e) => Err(e)
    case Ok(required) =>
      RequiredIsClosure(disk, root, fuel);
      assert forall p :: p in required ==> Expanded(disk, root, p, required);
      assert forall p :: p in required ==> Expanded(disk, root, p, required + core);
      Ok(required + core)
  }

  class DialogValidation {
    /** The Validation part of the object: its report and its error flag. */
    const v: Validation

    constructor(modulePath: seq<string>)
      ensures fresh(v) && v.modulePath == modulePath && v.State() == Acc(EmptyDict, false)
    {
      v := new Validation(modulePath);
    }

    /** `validateSlots`: the union of every file's slots, then each file's missing ones. */
    method ValidateSlots(files: seq<DialogFile>)
      modifies v
      ensures v.State() == ValidateSlotsSpec(old(v.State()), files)
    {
      var names := LoadSlotNames(files);
      RecordMissingSlots(files, names);
    }

    /** The first loop of validateSlots: parse every file and collect the union of slot names. */
    method LoadSlotNames(files: seq<DialogFile>) returns (names: seq<string>)
      modifies v
      ensures names == UnionNames(files)
      ensures v.State() == SyntaxPass(old(v.State()), files)
    {
      names := [];
      var i := 0;
      while i < |files|
        invariant 0 <= i <= |files|
        invariant v.State() == SyntaxPass(old(v.State()), files[..i])
        invariant names == UnionNames(files[..i])
      {
        var data := v.ValidateSyntax(files[i], NoTemplate);
        assert files[..i + 1][..i] == files[..i];
        names := AddNames(names, SlotNames(data));
        i := i + 1;
      }
      assert files[..i] == files;
    }

    /** The second loop of validateSlots: record each file's missing names. */
    method RecordMissingSlots(files: seq<DialogFile>, names: seq<string>)
      modifies v
      ensures v.State() == SlotsPass(old(v.State()), files, names)
    {
      var i := 0;
      while i < |files|
        invariant 0 <= i <= |files|
        invariant v.State() == SlotsPass(old(v.State()), files[..i], names)
      {
        var data := v.ValidateSyntax(files[i], NoTemplate);
        var missing := Without(names, SlotNames(data));
        v.report := Put(v.report, ["slots", files[i].name], Items(missing));
        if missing != [] {
          v.error := true;
        }
        assert files[..i + 1][..i] == files[..i];
        i := i + 1;
      }
      assert files[..i] == files;
    }

    /** `getAllSlots`: the slots of the given modules' files for one language. */
    method GetAllSlots(language: string, modules: seq<ModuleTemplates>) returns (all: map<string, SlotDef>)
      modifies v
      ensures all == AllSlots(language, modules)
      ensures v.State() == SyntaxPass(old(v.State()), LangFiles(language, modules))
    {
      all := map[];
      var i := 0;
      while i < |modules|
        invariant 0 <= i <= |modules|
        invariant all == AllSlots(language, modules[..i])
        invariant v.State() == SyntaxPass(old(v.State()), LangFiles(language, modules[..i]))
      {
        assert modules[..i + 1][..i] == modules[..i];
        if language in modules[i] {
          ghost var before := v.State();
          var data := v.ValidateSyntax(modules[i][language], NoTemplate);
          all := Update(all, data.slots);
          var files := LangFiles(language, modules[..i]) + [modules[i][language]];
          assert LangFiles(language, modules[..i + 1]) == files;
          assert files[..|files| - 1] == LangFiles(language, modules[..i]);
        } else {
          assert LangFiles(language, modules[..i + 1]) == LangFiles(language, modules[..i]);
        }
        assert v.State() == SyntaxPass(old(v.State()), LangFiles(language, modules[..i + 1]));
        i := i + 1;
      }
      assert modules[..i] == modules;
    }

    /** `validateIntentSlots`: every file's utterance slots against the slots known for its language. */
    method ValidateIntentSlots(files: seq<DialogFile>, modules: seq<ModuleTemplates>, builtins: set<string>, norm: string -> string)
      modifies v
      ensures v.State() == ValidateIntentSlotsSpec(old(v.State()), files, modules, builtins, norm)
    {
      var allSlots := LoadAllSlotsOf(files, modules);
      ghost var loaded := v.State();
      var i := 0;
      while i < |files|
        invariant 0 <= i <= |files|
        invariant v.State() == IntentSlotsPass(loaded, files[..i], modules, builtins, norm)
      {
        IntentSlotsOf(files[i], allSlots[files[i].name], builtins, norm);
        assert files[..i + 1][..i] == files[..i];
        i := i + 1;
      }
      assert files[..i] == files;
    }

    /** The first loop of validateIntentSlots: the known slots of each file's language. */
    method LoadAllSlotsOf(files: seq<DialogFile>, modules: seq<ModuleTemplates>) returns (allSlots: map<string, map<string, SlotDef>>)
      modifies v
      ensures v.State() == LoadAllSlots(old(v.State()), files, modules)
      ensures forall n :: n in allSlots ==> allSlots[n] == AllSlots(n, modules)
      ensures forall k :: 0 <= k < |files| ==> files[k].name in allSlots
    {
      allSlots := map[];
      var i := 0;
      while i < |files|
        invariant 0 <= i <= |files|
        invariant v.State() == LoadAllSlots(old(v.State()), files[..i], modules)
        invariant forall n :: n in allSlots ==> allSlots[n] == AllSlots(n, modules)
        invariant forall k :: 0 <= k < i ==> files[k].name in allSlots
      {
        var slots := GetAllSlots(files[i].name, modules);
        allSlots := allSlots[files[i].name := slots];
        assert files[..i + 1][..i] == files[..i];
        i := i + 1;
      }
      assert files[..i] == files;
    }

    /** The second loop of validateIntentSlots, for one file. */
    method IntentSlotsOf(file: DialogFile, known: map<string, SlotDef>, builtins: set<string>, norm: string -> string)
      modifies v
      ensures v.State() == IntentSlotsStep(old(v.State()), file, known, builtins, norm)
    {
      v.report := Touch(v.report, ["utterances", file.name]);
      var data := v.ValidateSyntax(file, NoTemplate);
      ghost var loaded := v.State();
      var intents := data.utteranceSlots;
      var i := 0;
      while i < |intents|
        invariant 0 <= i <= |intents|
        invariant v.State() == CheckIntents(loaded, file.name, intents[..i], known, builtins, norm)
      {
        CheckIntentSlots(file.name, intents[i].0, intents[i].1, known, builtins, norm);
        assert intents[..i + 1][..i] == intents[..i];
        i := i + 1;
      }
      assert intents[..i] == intents;
    }

    /** The loop over one intent's slots. */
    method CheckIntentSlots(name: string, intent: string, slots: seq<(string, seq<string>)>,
                            known: map<string, SlotDef>, builtins: set<string>, norm: string -> string)
      modifies v
      ensures v.State() == CheckSlots(old(v.State()), name, intent, slots, known, builtins, norm)
    {
      var j := 0;
      while j < |slots|
        invariant 0 <= j <= |slots|
        invariant v.State() == CheckSlots(old(v.State()), name, intent, slots[..j], known, builtins, norm)
      {
        var slot := slots[j].0;
        assert slots[..j + 1][..j] == slots[..j];
        if slot !in builtins {
          if slot !in known {
            v.error := true;
            var missingSlots := ["utterances", name, "missingSlots"];
            v.report := Touch(v.report, missingSlots);
            if intent in Entries(Lookup(v.report, missingSlots)) {
              v.report := Append(v.report, missingSlots + [intent], slot);
            } else {
              v.report := Put(v.report, missingSlots + [intent], Items([slot]));
            }
          } else {
            var missing := SearchMissingSlotValues(slots[j].1, known[slot], norm);
            if missing != [] {
              v.error := true;
              v.report := Put(v.report, ["utterances", name, "missingSlotValue", intent, slot], Items(missing));
            }
          }
        }
        j := j + 1;
      }
      assert slots[..j] == slots;
    }

    /** `searchDuplicateUtterances`: short forms shared by several utterances, per file and intent. */
    method SearchDuplicateUtterances(files: seq<DialogFile>)
      modifies v
      ensures v.State() == DuplicatesPass(old(v.State()), files)
    {
      var i := 0;
      while i < |files|
        invariant 0 <= i <= |files|
        invariant v.State() == DuplicatesPass(old(v.State()), files[..i])
      {
        DuplicatesOf(files[i]);
        assert files[..i + 1][..i] == files[..i];
        i := i + 1;
      }
      assert files[..i] == files;
    }

    method DuplicatesOf(file: DialogFile)
      modifies v
      ensures v.State() == DuplicatesStep(old(v.State()), file)
    {
      var duplicates := ["utterances", file.name, "duplicates"];
      v.report := Touch(v.report, duplicates);
      var data := v.ValidateSyntax(file, NoTemplate);
      ghost var loaded := v.State();
      var intents := data.shortUtterances;
      var i := 0;
      while i < |intents|
        invariant 0 <= i <= |intents|
        invariant v.State() == RecordIntents(loaded, duplicates, intents[..i])
      {
        var groups := intents[i].1;
        ghost var before := v.State();
        var j := 0;
        while j < |groups|
          invariant 0 <= j <= |groups|
          invariant v.State() == RecordGroups(before, duplicates, intents[i].0, groups[..j])
        {
          if |groups[j].1| > 1 {
            v.error := true;
            v.report := Put(v.report, duplicates + [intents[i].0, groups[j].0], Items(groups[j].1));
          }
          assert groups[..j + 1][..j] == groups[..j];
          j := j + 1;
        }
        assert groups[..j] == groups;
        assert intents[..i + 1][..i] == intents[..i];
        i := i + 1;
      }
      assert intents[..i] == intents;
    }

    /** `validate`: run the checks in order and answer whether any of them failed. */
    method Validate(verbosity: int, files: seq<DialogFile>, modules: seq<ModuleTemplates>, builtins: set<string>, norm: string -> string)
      returns (invalid: bool)
      modifies v
      ensures v.State() == ValidateSpec(old(v.State()), verbosity, files, modules, builtins, norm)
      ensures invalid == v.error
    {
      v.ValidateSchema(files, NoTemplate);
      ValidateSlots(files);
      if verbosity != 0 {
        SearchDuplicateUtterances(files);
      }
      ValidateIntentSlots(files, modules, builtins, norm);
      invalid := v.error;
    }
  }
}
