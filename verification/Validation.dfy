/**
 * The base of the dialog-template validator (Tools/JsonValidator,
 * Validation.py): the report it accumulates, the error flag, the JSON
 * syntax check and the schema check.
 *
 * The report `_validModule` is a `defaultdict` whose default factory makes
 * another such dict: reading a missing key creates an empty dict there, and
 * a write to a deep path creates every missing level. Its leaves are strings
 * (syntax errors) and lists of strings (everything else).
 */
module Validation {
  import opened Wrappers

  // ------------------------------------------------------------ the report

  datatype Report = Text(text: string) | Items(items: seq<string>) | Dict(entries: map<string, Report>)

  const EmptyDict: Report := Dict(map[])

  function Entries(r: Report): map<string, Report>
  {
    if r.Dict? then r.entries else map[]
  }

  /** `r[key]`: the stored value, or the empty dict the default factory makes. */
  function Child(r: Report, key: string): Report
  {
    if key in Entries(r) then Entries(r)[key] else EmptyDict
  }

  /** The value `r[p0][p1]...` evaluates to. */
  function Lookup(r: Report, path: seq<string>): Report
    decreases |path|
  {
    if path == [] then r else Lookup(Child(r, path[0]), path[1..])
  }

  /** Whether every key of the path is actually stored. */
  predicate Has(r: Report, path: seq<string>)
  {
    path == [] || (path[0] in Entries(r) && Has(Entries(r)[path[0]], path[1..]))
  }

  /** `r[p0]...[pn] = v`, creating every missing level on the way. */
  function Put(r: Report, path: seq<string>, v: Report): Report
    decreases |path|
  {
    if path == [] then v else Dict(Entries(r)[path[0] := Put(Child(r, path[0]), path[1..], v)])
  }

  /** Evaluating `r[p0]...[pn]` for its side effect: every missing level is created. */
  function Touch(r: Report, path: seq<string>): Report
  {
    Put(r, path, Lookup(r, path))
  }

  /** `r[p0]...[pn].append(x)` on a list that the report holds. */
  function Append(r: Report, path: seq<string>, x: string): Report
  {
    Put(r, path, Items(ItemsOf(Lookup(r, path)) + [x]))
  }

  function ItemsOf(r: Report): seq<string>
  {
    if r.Items? then r.items else []
  }

  /** Two paths that differ at some position both have. */
  predicate Apart(p: seq<string>, q: seq<string>)
  {
    |p| > 0 && |q| > 0 && (p[0] != q[0] || Apart(p[1..], q[1..]))
  }

  /** A write is read back from the same path. */
  lemma {:induction false} LookupPut(r: Report, path: seq<string>, v: Report)
    ensures Lookup(Put(r, path, v), path) == v
    ensures Has(Put(r, path, v), path)
    decreases |path|
  {
    if path != [] {
      LookupPut(Child(r, path[0]), path[1..], v);
    }
  }

  /** A write leaves every path apart from it as it was. */
  lemma {:induction false} LookupPutApart(r: Report, p: seq<string>, q: seq<string>, v: Report)
    requires Apart(p, q)
    ensures Lookup(Put(r, p, v), q) == Lookup(r, q)
    ensures Has(Put(r, p, v), q) == Has(r, q)
    decreases |p|
  {
    if p[0] == q[0] {
      LookupPutApart(Child(r, p[0]), p[1..], q[1..], v);
    }
  }

  /** The second of two writes to one path is the one that stays. */
  lemma {:induction false} PutPut(r: Report, path: seq<string>, v: Report, w: Report)
    ensures Put(Put(r, path, v), path, w) == Put(r, path, w)
    decreases |path|
  {
    if path != [] {
      PutPut(Child(r, path[0]), path[1..], v, w);
    }
  }

  /** Writing back what a stored path already holds changes nothing. */
  lemma {:induction false} PutLookupSame(r: Report, path: seq<string>)
    requires Has(r, path)
    ensures Put(r, path, Lookup(r, path)) == r
  {
    if path != [] {
      PutLookupSame(Entries(r)[path[0]], path[1..]);
    }
  }

  /** Reading a path creates it; when it was stored already, reading changes nothing. */
  lemma TouchCreates(r: Report, path: seq<string>)
    ensures Has(Touch(r, path), path)
    ensures Lookup(Touch(r, path), path) == Lookup(r, path)
    ensures Has(r, path) ==> Touch(r, path) == r
  {
    LookupPut(r, path, Lookup(r, path));
    if Has(r, path) {
      PutLookupSame(r, path);
    }
  }

  /** A missing path reads as an empty dict, so deep writes never fail. */
  lemma {:induction false} MissingReadsEmpty(r: Report, path: seq<string>)
    requires !Has(r, path)
    ensures Lookup(r, path) == EmptyDict
  {
    if path[0] in Entries(r) {
      MissingReadsEmpty(Entries(r)[path[0]], path[1..]);
    } else {
      EmptyReadsEmpty(path[1..]);
    }
  }

  /** Reading a longer path reads through the shorter one. */
  lemma {:induction false} LookupConcat(r: Report, p: seq<string>, q: seq<string>)
    ensures Lookup(r, p + q) == Lookup(Lookup(r, p), q)
    decreases |p|
  {
    if p == [] {
      assert p + q == q;
    } else {
      assert (p + q)[1..] == p[1..] + q;
      LookupConcat(Child(r, p[0]), p[1..], q);
    }
  }

  /** Below a write, the report reads as the written value. */
  lemma LookupPutBelow(r: Report, p: seq<string>, q: seq<string>, v: Report)
    ensures Lookup(Put(r, p, v), p + q) == Lookup(v, q)
  {
    LookupConcat(Put(r, p, v), p, q);
    LookupPut(r, p, v);
  }

  /** Two paths are apart when they agree up to some position and differ there. */
  lemma {:induction false} ApartAt(p: seq<string>, q: seq<string>, k: nat)
    requires k < |p| && k < |q| && p[..k] == q[..k] && p[k] != q[k]
    ensures Apart(p, q)
  {
    if k > 0 {
      assert p[0] == p[..k][0] && q[0] == q[..k][0];
      assert p[1..][..k - 1] == p[..k][1..] && q[1..][..k - 1] == q[..k][1..];
      ApartAt(p[1..], q[1..], k - 1);
    }
  }

  /** A path below one apart from q is apart from q too. */
  lemma {:induction false} ApartExtend(p: seq<string>, x: seq<string>, q: seq<string>)
    requires Apart(p, q)
    ensures Apart(p + x, q)
  {
    assert (p + x)[0] == p[0];
    if p[0] == q[0] {
      assert (p + x)[1..] == p[1..] + x;
      ApartExtend(p[1..], x, q[1..]);
    }
  }

  predicate Below(p: seq<string>, q: seq<string>)
  {
    |p| <= |q| && q[..|p|] == p
  }

  /** Reading a path for its side effect leaves the paths below it and apart from it reading as before. */
  lemma TouchKeeps(r: Report, p: seq<string>, q: seq<string>)
    requires Apart(p, q) || Below(p, q)
    ensures Lookup(Touch(r, p), q) == Lookup(r, q)
  {
    if Apart(p, q) {
      LookupPutApart(r, p, q, Lookup(r, p));
    } else {
      var rest := q[|p|..];
      assert q == p + rest;
      LookupPutBelow(r, p, rest, Lookup(r, p));
      LookupConcat(r, p, rest);
    }
  }

  lemma {:induction false} EmptyReadsEmpty(path: seq<string>)
    ensures Lookup(EmptyDict, path) == EmptyDict
  {
    if path != [] {
      EmptyReadsEmpty(path[1..]);
    }
  }

  // ------------------------------------------------- the validator's state

  /** `_validModule` and `_error` together. */
  datatype Acc = Acc(report: Report, error: bool)

  /** What the schema validator reports for one violation: `str(error)` and `error.message`. */
  datatype SchemaError = SchemaError(text: string, message: string)

  /**
   * One JSON file under validation: its name, its content (the parsed data,
   * or the message of the ValueError the parser raised) and the violations
   * the schema validator finds in the data it is given.
   */
  datatype JsonFile<D> = JsonFile(name: string, content: Result<D, string>, schemaErrors: seq<SchemaError>)

  /** What `validateSyntax` returns: the parsed data, or `empty` for an empty dict. */
  function DataOf<D>(file: JsonFile<D>, empty: D): D
  {
    match file.content
    case Ok(d) => d
    case Err(_) => empty
  }

  /** `validateSyntax`: a file that does not parse is recorded under syntax/<name>. */
  function SyntaxStep<D>(a: Acc, file: JsonFile<D>): (r: Acc)
    ensures r.error == (a.error || file.content.Err?)
    ensures file.content.Ok? ==> r == a
    ensures file.content.Err? ==> Lookup(r.report, ["syntax", file.name]) == Text(file.content.error)
  {
    match file.content
    case Ok(_) => a
    case Err(msg) =>
      LookupPut(a.report, ["syntax", file.name], Text(msg));
      Acc(Put(a.report, ["syntax", file.name], Text(msg)), true)
  }

  /** `validateSyntax` on each file in turn. */
  function SyntaxPass<D>(a: Acc, files: seq<JsonFile<D>>): Acc
  {
    if files == [] then a else SyntaxStep(SyntaxPass(a, files[..|files| - 1]), files[|files| - 1])
  }

  /** `validateSchema` for one file. */
  function SchemaStep<D>(a: Acc, file: JsonFile<D>): Acc
  {
    var path := ["schema", file.name];
    var loaded := SyntaxStep(Acc(Put(a.report, path, Items([])), a.error), file);
    if file.schemaErrors == [] then loaded
    else Acc(Put(loaded.report, path, Items(Messages(SortByText(file.schemaErrors)))), true)
  }

  function SchemaPass<D>(a: Acc, files: seq<JsonFile<D>>): Acc
  {
    if files == [] then a else SchemaStep(SchemaPass(a, files[..|files| - 1]), files[|files| - 1])
  }

  function Messages(errors: seq<SchemaError>): (r: seq<string>)
    ensures |r| == |errors|
    ensures forall i :: 0 <= i < |errors| ==> r[i] == errors[i].message
  {
    if errors == [] then [] else [errors[0].message] + Messages(errors[1..])
  }

  /**
   * What validateSchema records for one file: an empty list when the data
   * satisfies the schema, otherwise the messages of all violations sorted by
   * their string form.
   */
  lemma SchemaStepRecords<D>(a: Acc, file: JsonFile<D>)
    ensures var r := SchemaStep(a, file);
      && Lookup(r.report, ["schema", file.name]) == Items(Messages(SortByText(file.schemaErrors)))
      && r.error == (a.error || file.content.Err? || file.schemaErrors != [])
  {
    var path := ["schema", file.name];
    var empty := Put(a.report, path, Items([]));
    LookupPut(a.report, path, Items([]));
    if file.content.Err? {
      LookupPutApart(empty, ["syntax", file.name], path, Text(file.content.error));
    }
    var loaded := SyntaxStep(Acc(empty, a.error), file);
    LookupPut(loaded.report, path, Items(Messages(SortByText(file.schemaErrors))));
  }

  /** The error flag after the schema check: set when it was, or when any file fails to parse or to validate. */
  lemma {:induction false} SchemaPassError<D>(a: Acc, files: seq<JsonFile<D>>)
    ensures SchemaPass(a, files).error <==>
      a.error || exists i :: 0 <= i < |files| && (files[i].content.Err? || files[i].schemaErrors != [])
  {
    if files != [] {
      var init := files[..|files| - 1];
      SchemaPassError(a, init);
      SchemaStepRecords(SchemaPass(a, init), files[|files| - 1]);
      assert forall i :: 0 <= i < |init| ==> init[i] == files[i];
    }
  }

  /** The syntax check writes only under syntax/. */
  lemma SyntaxStepKeeps<D>(a: Acc, file: JsonFile<D>, q: seq<string>)
    requires |q| > 0 && q[0] != "syntax"
    ensures Lookup(SyntaxStep(a, file).report, q) == Lookup(a.report, q)
  {
    if file.content.Err? {
      ApartAt(["syntax", file.name], q, 0);
      LookupPutApart(a.report, ["syntax", file.name], q, Text(file.content.error));
    }
  }

  lemma {:induction false} SyntaxPassKeeps<D>(a: Acc, files: seq<JsonFile<D>>, q: seq<string>)
    requires |q| > 0 && q[0] != "syntax"
    ensures Lookup(SyntaxPass(a, files).report, q) == Lookup(a.report, q)
  {
    if files != [] {
      SyntaxPassKeeps(a, files[..|files| - 1], q);
      SyntaxStepKeeps(SyntaxPass(a, files[..|files| - 1]), files[|files| - 1], q);
    }
  }

  /** The schema check writes only under schema/ and syntax/. */
  lemma {:induction false} SchemaPassKeeps<D>(a: Acc, files: seq<JsonFile<D>>, q: seq<string>)
    requires |q| > 0 && q[0] != "syntax" && q[0] != "schema"
    ensures Lookup(SchemaPass(a, files).report, q) == Lookup(a.report, q)
  {
    if files != [] {
      var before := SchemaPass(a, files[..|files| - 1]);
      var file := files[|files| - 1];
      var path := ["schema", file.name];
      SchemaPassKeeps(a, files[..|files| - 1], q);
      ApartAt(path, q, 0);
      LookupPutApart(before.report, path, q, Items([]));
      var loaded := SyntaxStep(Acc(Put(before.report, path, Items([])), before.error), file);
      SyntaxStepKeeps(Acc(Put(before.report, path, Items([])), before.error), file, q);
      LookupPutApart(loaded.report, path, q, Items(Messages(SortByText(file.schemaErrors))));
    }
  }

  // ------------------------------------------ sorting by string form

  /** Python's string order: by code point, a proper prefix first. */
  predicate TextLe(a: string, b: string)
  {
    a == [] || (b != [] && (a[0] < b[0] || (a[0] == b[0] && TextLe(a[1..], b[1..]))))
  }

  lemma {:induction false} TextLeTotal(a: string, b: string)
    ensures TextLe(a, b) || TextLe(b, a)
  {
    if a != [] && b != [] && a[0] == b[0] {
      TextLeTotal(a[1..], b[1..]);
    }
  }

  lemma {:induction false} TextLeTrans(a: string, b: string, c: string)
    requires TextLe(a, b) && TextLe(b, c)
    ensures TextLe(a, c)
  {
    if a != [] && a[0] == b[0] && b[0] == c[0] {
      TextLeTrans(a[1..], b[1..], c[1..]);
    }
  }

  predicate SortedByText(s: seq<SchemaError>)
  {
    forall i, j :: 0 <= i < j < |s| ==> TextLe(s[i].text, s[j].text)
  }

  /** Insert after every element whose text is not greater, so equal texts keep their order. */
  function Insert(e: SchemaError, s: seq<SchemaError>): (r: seq<SchemaError>)
    ensures multiset(r) == multiset(s) + multiset{e}
  {
    if s == [] then [e]
    else if TextLe(s[0].text, e.text) then
      assert s == [s[0]] + s[1..];
      [s[0]] + Insert(e, s[1..])
    else [e] + s
  }

  /** Every element of a sequence sorted by text is not below its head. */
  lemma HeadIsLeast(s: seq<SchemaError>, x: SchemaError)
    requires SortedByText(s) && x in multiset(s)
    ensures TextLe(s[0].text, x.text)
  {
    var m :| 0 <= m < |s| && s[m] == x;
    if m == 0 {
      TextLeTotal(x.text, x.text);
    }
  }

  /** A sorted sequence stays sorted behind an element not above any of its elements. */
  lemma ConsSorted(x: SchemaError, s: seq<SchemaError>)
    requires SortedByText(s)
    requires forall k :: 0 <= k < |s| ==> TextLe(x.text, s[k].text)
    ensures SortedByText([x] + s)
  {
    var r := [x] + s;
    forall i, j | 0 <= i < j < |r|
      ensures TextLe(r[i].text, r[j].text)
    {
      if i > 0 {
        assert r[i] == s[i - 1] && r[j] == s[j - 1];
      } else {
        assert r[j] == s[j - 1];
      }
    }
  }

  lemma {:induction false} InsertSorted(e: SchemaError, s: seq<SchemaError>)
    requires SortedByText(s)
    ensures SortedByText(Insert(e, s))
  {
    if s == [] {
    } else if TextLe(s[0].text, e.text) {
      var tail := s[1..];
      assert SortedByText(tail) by {
        forall i, j | 0 <= i < j < |tail|
          ensures TextLe(tail[i].text, tail[j].text)
        {
          assert tail[i] == s[i + 1] && tail[j] == s[j + 1];
        }
      }
      InsertSorted(e, tail);
      var rest := Insert(e, tail);
      forall k | 0 <= k < |rest|
        ensures TextLe(s[0].text, rest[k].text)
      {
        assert rest[k] in multiset(rest);
        if rest[k] != e {
          assert rest[k] in multiset(tail);
          assert s == [s[0]] + tail;
          HeadIsLeast(s, rest[k]);
        }
      }
      ConsSorted(s[0], rest);
      assert Insert(e, s) == [s[0]] + rest;
    } else {
      TextLeTotal(e.text, s[0].text);
      forall k | 0 <= k < |s|
        ensures TextLe(e.text, s[k].text)
      {
        if k > 0 {
          TextLeTrans(e.text, s[0].text, s[k].text);
        }
      }
      ConsSorted(e, s);
    }
  }

  /** Python's `sorted(errors, key=str)`: a stable insertion sort on the string form. */
  function SortByText(s: seq<SchemaError>): (r: seq<SchemaError>)
    ensures multiset(r) == multiset(s)
    ensures SortedByText(r)
  {
    if s == [] then []
    else
      assert s == s[..|s| - 1] + [s[|s| - 1]];
      InsertSorted(s[|s| - 1], SortByText(s[..|s| - 1]));
      Insert(s[|s| - 1], SortByText(s[..|s| - 1]))
  }

  // ------------------------------------------------------ module path

  /** `Path.name`: the last component, or "" for an empty path. */
  function Name(path: seq<string>): string
  {
    if path == [] then "" else path[|path| - 1]
  }

  /** `Path.parent`: every component but the last. */
  function Parent(path: seq<string>): seq<string>
  {
    if path == [] then [] else path[..|path| - 1]
  }

  // ------------------------------------------------------- the object

  /** The state of a validator object: the module it validates, the report and the error flag. */
  class Validation {
    const modulePath: seq<string>
    var report: Report
    var error: bool

    constructor(modulePath: seq<string>)
      ensures this.modulePath == modulePath
      ensures report == EmptyDict && !error
    {
      this.modulePath := modulePath;
      report := EmptyDict;
      error := false;
    }

    function State(): Acc
      reads this
    {
      Acc(report, error)
    }

    /** `moduleName`: the directory name of the module. */
    function ModuleName(): (r: string)
      ensures |modulePath| > 0 ==> r == modulePath[|modulePath| - 1]
      ensures modulePath == [] ==> r == ""
    {
      Name(modulePath)
    }

    /** `moduleAuthor`: the name of the directory that holds the module. */
    function ModuleAuthor(): (r: string)
      ensures |modulePath| > 1 ==> r == modulePath[|modulePath| - 2]
      ensures |modulePath| <= 1 ==> r == ""
    {
      Name(Parent(modulePath))
    }

    /** `validateSyntax`: the parsed data, or an empty one with the parser's message recorded. */
    method ValidateSyntax<D>(file: JsonFile<D>, empty: D) returns (data: D)
      modifies this
      ensures data == DataOf(file, empty)
      ensures State() == SyntaxStep(old(State()), file)
    {
      data := empty;
      match file.content {
        case Ok(d) =>
          data := d;
        case Err(msg) =>
          report := Put(report, ["syntax", file.name], Text(msg));
          error := true;
      }
    }

    /** `validateSchema`: a list under schema/<name> for every file, filled when validation fails. */
    method ValidateSchema<D>(files: seq<JsonFile<D>>, empty: D)
      modifies this
      ensures State() == SchemaPass(old(State()), files)
    {
      var i := 0;
      while i < |files|
        invariant 0 <= i <= |files|
        invariant State() == SchemaPass(old(State()), files[..i])
      {
        ValidateSchemaOf(files[i], empty);
        assert files[..i + 1][..i] == files[..i];
        i := i + 1;
      }
      assert files[..i] == files;
    }

    /** The body of validateSchema's loop, for one file. */
    method ValidateSchemaOf<D>(file: JsonFile<D>, empty: D)
      modifies this
      ensures State() == SchemaStep(old(State()), file)
    {
      var path := ["schema", file.name];
      ghost var before := State();
      report := Put(report, path, Items([]));
      LookupPut(before.report, path, Items([]));
      var data := ValidateSyntax(file, empty);
      if file.content.Err? {
        LookupPutApart(Put(before.report, path, Items([])), ["syntax", file.name], path, Text(file.content.error));
      }
      if file.schemaErrors != [] {
        error := true;
        AppendAll(path, Messages(SortByText(file.schemaErrors)));
      }
    }

    /** `for m in messages: report[path].append(m)`, on the empty list stored at path. */
    method AppendAll(path: seq<string>, messages: seq<string>)
      requires Has(report, path) && Lookup(report, path) == Items([])
      modifies this`report
      ensures report == Put(old(report), path, Items(messages))
    {
      PutLookupSame(report, path);
      var j := 0;
      while j < |messages|
        invariant 0 <= j <= |messages|
        invariant report == Put(old(report), path, Items(messages[..j]))
      {
        LookupPut(old(report), path, Items(messages[..j]));
        PutPut(old(report), path, Items(messages[..j]), Items(messages[..j + 1]));
        assert messages[..j + 1] == messages[..j] + [messages[j]];
        report := Append(report, path, messages[j]);
        j := j + 1;
      }
      assert messages[..j] == messages;
    }
  }
}
