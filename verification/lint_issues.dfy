/** The pure functions of the lint action (actions/lint.py) over the issue
    records ansible-lint writes in its codeclimate JSON format: severity
    levels and colours, the content-key filter and `massage_issue`. */
module LintIssues {
  import opened Wrappers
  import opened Text
  import opened Values

  // ---------------------------------------------------------------------
  // Severity
  // ---------------------------------------------------------------------

  /** The members of the `Severity` enum. */
  datatype Severity = Info | Minor | Major | Critical | Blocker | Unknown

  /** The integer value of each member. */
  function Level(s: Severity): int {
    match s
    case Info => 10
    case Minor => 20
    case Major => 30
    case Critical => 40
    case Blocker => 50
    case Unknown => -1
  }

  /** The name of each member. */
  function Name(s: Severity): string {
    match s
    case Info => "INFO"
    case Minor => "MINOR"
    case Major => "MAJOR"
    case Critical => "CRITICAL"
    case Blocker => "BLOCKER"
    case Unknown => "UNKNOWN"
  }

  /** `Severity[name]`, the lookup by member name; Python raises `KeyError`
      for any other name. */
  function SeverityByName(name: string): (r: Option<Severity>)
    ensures r.Some? ==> Name(r.value) == name
    ensures r.None? ==> forall s: Severity :: Name(s) != name
  {
    if name == "INFO" then Some(Info)
    else if name == "MINOR" then Some(Minor)
    else if name == "MAJOR" then Some(Major)
    else if name == "CRITICAL" then Some(Critical)
    else if name == "BLOCKER" then Some(Blocker)
    else if name == "UNKNOWN" then Some(Unknown)
    else None
  }

  /** `Severity(value)`, the lookup by value, which `_missing_` turns into
      `UNKNOWN` for any value no member has. */
  function SeverityByValue(v: int): (r: Severity)
    ensures Level(r) == v || (r == Unknown && forall s: Severity :: Level(s) != v)
  {
    if v == 10 then Info
    else if v == 20 then Minor
    else if v == 30 then Major
    else if v == 40 then Critical
    else if v == 50 then Blocker
    else Unknown
  }

  /** Names and values identify the members: both lookups invert the
      member's own name and value. */
  lemma SeverityLookupsRoundTrip(s: Severity)
    ensures SeverityByName(Name(s)) == Some(s)
    ensures SeverityByValue(Level(s)) == s
  {
  }

  // ---------------------------------------------------------------------
  // Colours
  // ---------------------------------------------------------------------

  /** The curses colours of the UI framework. */
  datatype Color = Black | Red | Green | Yellow | Blue | Magenta | Cyan | White

  /** `severity_to_color`: the lower-case codeclimate severities have a
      colour; anything else, including other spellings, is black. */
  function SeverityToColor(severity: string): (c: Color)
    ensures c == Magenta <==> severity == "minor"
    ensures c == Yellow <==> severity == "major"
    ensures c == Red <==> severity == "critical" || severity == "blocker"
    ensures c == Cyan <==> severity == "info"
    ensures c == Black <==> severity !in {"minor", "major", "critical", "blocker", "info"}
  {
    if severity == "minor" then Magenta
    else if severity == "major" then Yellow
    else if severity == "critical" || severity == "blocker" then Red
    else if severity == "info" then Cyan
    else Black
  }

  /** The exceptions Python raises while reading an issue record. */
  datatype LintError =
    | KeyError(key: string)
    | TypeError
    | AttributeError(attribute: string)
    | IndexError

  /** Python's `v[key]` with a string key. */
  function Index(v: Value, key: string): (r: Result<Value, LintError>)
    ensures r.Success? <==> v.Dict? && key in Keys(v.entries)
    ensures r.Success? ==> Some(r.value) == Get(v.entries, key)
  {
    if v.Dict? then
      match Get(v.entries, key)
      case Some(x) => Success(x)
      case None => Failure(KeyError(key))
    else Failure(TypeError)
  }

  /** `color_menu`: the severity's colour on a black background. */
  function ColorMenu(colno: int, colname: string, entry: Value): (r: Result<(Color, Color), LintError>)
    ensures r.Success? <==> entry.Dict? && "severity" in Keys(entry.entries)
    ensures r.Success? ==> r.value.1 == Black
    ensures r.Success? && Index(entry, "severity").value.Str? ==>
              r.value.0 == SeverityToColor(Index(entry, "severity").value.s)
    ensures r.Success? && !Index(entry, "severity").value.Str? ==> r.value.0 == Black
  {
    var severity :- Index(entry, "severity");
    Success((if severity.Str? then SeverityToColor(severity.s) else Black, Black))
  }

  // ---------------------------------------------------------------------
  // Content keys
  // ---------------------------------------------------------------------

  /** A key the issue content view shows: not internal (`__` prefix) and
      not the fingerprint. */
  predicate Shown(k: string) {
    !("__" <= k) && k != "fingerprint"
  }

  /** `filter_content_keys`: the shown entries, in order, values unchanged. */
  function FilterContentKeys(es: seq<Entry>): (r: seq<Entry>)
    ensures Keys(r) == set k | k in Keys(es) && Shown(k)
    ensures forall k :: Get(r, k) == if Shown(k) then Get(es, k) else None
    ensures forall i :: 0 <= i < |r| ==> r[i] in es
    ensures |r| <= |es|
  {
    if es == [] then []
    else if Shown(es[0].key) then [es[0]] + FilterContentKeys(es[1..])
    else FilterContentKeys(es[1..])
  }

  /** Filtering a filtered record changes nothing. */
  lemma {:induction false} FilterContentKeysIdempotent(es: seq<Entry>)
    ensures FilterContentKeys(FilterContentKeys(es)) == FilterContentKeys(es)
  {
    if es != [] {
      FilterContentKeysIdempotent(es[1..]);
    }
  }

  /** The filter keeps order: filtering a concatenation concatenates the
      filtered parts. */
  lemma {:induction false} FilterContentKeysAppend(a: seq<Entry>, b: seq<Entry>)
    ensures FilterContentKeys(a + b) == FilterContentKeys(a) + FilterContentKeys(b)
  {
    if a == [] {
      assert a + b == b;
    } else {
      assert (a + b)[0] == a[0];
      assert (a + b)[1..] == a[1..] + b;
      FilterContentKeysAppend(a[1..], b);
    }
  }

  /** A single entry is kept exactly when its key is shown. */
  lemma FilterContentKeysOne(e: Entry)
    ensures FilterContentKeys([e]) == if Shown(e.key) then [e] else []
  {
    assert [e][1..] == [];
  }

  /** Storing under a hidden key is invisible to the filter; storing under
      a shown key is stored in the filtered record. */
  lemma {:induction false} FilterPut(es: seq<Entry>, k: string, v: Value)
    ensures FilterContentKeys(Put(es, k, v))
              == if Shown(k) then Put(FilterContentKeys(es), k, v) else FilterContentKeys(es)
  {
    if es != [] && es[0].key != k {
      FilterPut(es[1..], k, v);
      assert Put(es, k, v) == [es[0]] + Put(es[1..], k, v);
    } else if es != [] {
      assert Put(es, k, v) == [Entry(k, v)] + es[1..];
    }
  }

  // ---------------------------------------------------------------------
  // massage_issue
  // ---------------------------------------------------------------------

  /** The collaborators `massage_issue` calls: `expand_path` and the text
      an f-string gives a value that is neither an int nor a str. */
  datatype Env = Env(expandPath: string -> string, render: Value -> string)

  /** `f"{v}"`, that is `str(v)`. */
  function Display(env: Env, v: Value): string {
    match v
    case Str(s) => s
    case Int(i) => IntToString(i)
    case Bool(b) => if b then "True" else "False"
    case Null => "None"
    case _ => env.render(v)
  }

  /** The value found by following `path` through nested dicts. */
  function At(v: Value, path: seq<string>): Option<Value>
    decreases |path|
  {
    if path == [] then Some(v)
    else if v.Dict? && path[0] in Keys(v.entries) then At(Get(v.entries, path[0]).value, path[1..])
    else None
  }

  /** The keys `massage_issue` adds. */
  const InjectedKeys: set<string> := {"__severity", "__message", "__path", "__line", "issue_path"}

  /** `issue["check_name"].split("]")[1].strip()`: the message of the
      ansible-lint 6.1 form "[rule-id] message". */
  function LegacyMessage(checkName: string): (r: Result<string, LintError>)
    ensures r.Success? <==> ']' in checkName
    ensures r.Failure? ==> r.error == IndexError
  {
    SplitHasSecondPiece(checkName, ']');
    var pieces := Split(checkName, ']');
    if |pieces| < 2 then Failure(IndexError) else Success(Strip(pieces[1]))
  }

  /** `__line`: `lines.begin.line` when `lines.begin` is a mapping, else
      `positions.begin` when that is a mapping, else `lines.begin`; each
      test raises when its path cannot be followed. */
  function IssueLine(location: seq<Entry>): Result<Value, LintError> {
    var lines := Get(location, "lines");
    var positions := Get(location, "positions");
    var linesBegin := if lines.Some? then Index(lines.value, "begin") else Failure(KeyError("lines"));
    var positionsBegin := if positions.Some? then Index(positions.value, "begin") else Failure(KeyError("positions"));
    if lines.Some? && linesBegin.Failure? then linesBegin
    else if lines.Some? && linesBegin.value.Dict? then Index(linesBegin.value, "line")
    else if positions.Some? && positionsBegin.Failure? then positionsBegin
    else if positions.Some? && positionsBegin.value.Dict? then positionsBegin
    else linesBegin
  }

  /** The five assignments `massage_issue` makes to the copied record. */
  function Annotate(es: seq<Entry>, severity: Value, message: Value, path: Value, line: Value, issuePath: Value)
    : (r: seq<Entry>)
    ensures Keys(r) == Keys(es) + InjectedKeys
    ensures forall k :: k !in InjectedKeys ==> Get(r, k) == Get(es, k)
    ensures Get(r, "__severity") == Some(severity) && Get(r, "__message") == Some(message)
    ensures Get(r, "__path") == Some(path) && Get(r, "__line") == Some(line)
    ensures Get(r, "issue_path") == Some(issuePath)
  {
    var kvs := [Entry("__severity", severity), Entry("__message", message), Entry("__path", path),
                Entry("__line", line), Entry("issue_path", issuePath)];
    InjectedLast(es, kvs);
    PutAll(es, kvs)
  }

  /** The five injected keys are distinct, so each holds its own value. */
  lemma InjectedLast(es: seq<Entry>, kvs: seq<Entry>)
    requires |kvs| == 5 && kvs[0].key == "__severity" && kvs[1].key == "__message"
    requires kvs[2].key == "__path" && kvs[3].key == "__line" && kvs[4].key == "issue_path"
    ensures Keys(kvs) == InjectedKeys
    ensures forall i :: 0 <= i < 5 ==> Get(PutAll(es, kvs), kvs[i].key) == Some(kvs[i].val)
  {
    assert Keys(kvs[4..]) == {"issue_path"};
    assert Keys(kvs[3..]) == {"__line", "issue_path"};
    assert Keys(kvs[2..]) == {"__path", "__line", "issue_path"};
    assert Keys(kvs[1..]) == {"__message", "__path", "__line", "issue_path"};
    PutAllLast(es, kvs, 0);
    PutAllLast(es, kvs, 1);
    PutAllLast(es, kvs, 2);
    PutAllLast(es, kvs, 3);
    PutAllLast(es, kvs, 4);
  }

  /** What `massage_issue` reads from an issue, in the order it reads it:
      the capitalised severity, the message, the expanded path, the line. */
  datatype Rendering = Rendering(severity: string, message: Value, path: string, line: Value)

  function ReadIssue(env: Env, issue: Value): (r: Result<Rendering, LintError>)
    ensures r.Success? ==> issue.Dict?
    ensures r.Success? ==>
              && Get(issue.entries, "location").Some? && Get(issue.entries, "location").value.Dict?
              && IssueLine(Get(issue.entries, "location").value.entries) == Success(r.value.line)
    ensures r.Success? ==>
              && Get(issue.entries, "check_name").Some? && Get(issue.entries, "check_name").value.Str?
              && var checkName := Get(issue.entries, "check_name").value.s;
                 && ("[" <= checkName ==>
                       LegacyMessage(checkName).Success? && r.value.message == Str(LegacyMessage(checkName).value))
                 && (!("[" <= checkName) ==> Some(r.value.message) == Get(issue.entries, "description"))
  {
    if !issue.Dict? then
      Failure(if issue.List? then TypeError else AttributeError("copy"))
    else
      var severity :- Index(issue, "severity");
      if !severity.Str? then Failure(AttributeError("capitalize"))
      else
        var checkName :- Index(issue, "check_name");
        if !checkName.Str? then Failure(AttributeError("startswith"))
        else
          var message :-
            if "[" <= checkName.s then
              var text :- LegacyMessage(checkName.s);
              Success(Str(text))
            else Index(issue, "description");
          var location :- Index(issue, "location");
          var path :- Index(location, "path");
          if !path.Str? then Failure(TypeError)
          else
            var line :- IssueLine(location.entries);
            Success(Rendering(Capitalize(severity.s), message, env.expandPath(path.s), line))
  }

  /** `massage_issue`: a copy of the issue with the rendering keys added.
      The issue itself is a value and is left as it was. */
  function Massage(env: Env, issue: Value): (r: Result<Value, LintError>)
    ensures r.Success? ==> issue.Dict? && r.value.Dict?
    ensures r.Success? ==> Keys(r.value.entries) == Keys(issue.entries) + InjectedKeys
    ensures r.Success? ==> forall k :: k !in InjectedKeys ==> Get(r.value.entries, k) == Get(issue.entries, k)
    ensures r.Success? ==>
              && Get(issue.entries, "severity").Some? && Get(issue.entries, "severity").value.Str?
              && Get(r.value.entries, "__severity") == Some(Str(Capitalize(Get(issue.entries, "severity").value.s)))
    ensures r.Success? ==>
              && At(issue, ["location", "path"]).Some? && At(issue, ["location", "path"]).value.Str?
              && Get(r.value.entries, "__path") == Some(Str(env.expandPath(At(issue, ["location", "path"]).value.s)))
    ensures r.Success? ==>
              && Get(r.value.entries, "__line").Some?
              && Get(r.value.entries, "issue_path")
                   == Some(Str(env.expandPath(At(issue, ["location", "path"]).value.s) + ":"
                               + Display(env, Get(r.value.entries, "__line").value)))
  {
    var f :- ReadIssue(env, issue);
    assert At(issue, ["location", "path"]) == Some(Str(At(issue, ["location", "path"]).value.s));
    Success(Dict(Annotate(issue.entries, Str(f.severity), f.message, Str(f.path), f.line,
                          Str(f.path + ":" + Display(env, f.line)))))
  }
}

module LintIssueFacts {
  import opened Wrappers
  import opened Text
  import opened Values
  import opened LintIssues

  predicate IsMappingAt(v: Value, path: seq<string>) {
    At(v, path).Some? && At(v, path).value.Dict?
  }

  predicate IsStrAt(v: Value, path: seq<string>) {
    At(v, path).Some? && At(v, path).value.Str?
  }

  /** A location from which `__line` can be read: `lines.begin.line`, or a
      non-mapping `lines.begin` (with `positions`, when present, holding a
      `begin`), or no `lines` at all but a mapping `positions.begin`. */
  predicate LineResolvable(location: Value) {
    || (IsMappingAt(location, ["lines", "begin"]) && At(location, ["lines", "begin", "line"]).Some?)
    || (&& At(location, ["lines", "begin"]).Some? && !IsMappingAt(location, ["lines", "begin"])
        && (At(location, ["positions"]).None? || At(location, ["positions", "begin"]).Some?))
    || (At(location, ["lines"]).None? && IsMappingAt(location, ["positions", "begin"]))
  }

  /** An issue record `massage_issue` can read: string `severity` and
      `check_name`, a message (after a `]` in the 6.1 form, else in
      `description`), a string `location.path` and a line. */
  predicate CodeClimateIssue(issue: Value) {
    && IsStrAt(issue, ["severity"])
    && IsStrAt(issue, ["check_name"])
    && (var checkName := At(issue, ["check_name"]).value.s;
        if "[" <= checkName then ']' in checkName else At(issue, ["description"]).Some?)
    && IsStrAt(issue, ["location", "path"])
    && LineResolvable(At(issue, ["location"]).value)
  }

  lemma AtOne(v: Value, k: string)
    ensures At(v, [k]) == if v.Dict? && k in Keys(v.entries) then Get(v.entries, k) else None
  {
    if v.Dict? && k in Keys(v.entries) {
      assert At(Get(v.entries, k).value, []) == Get(v.entries, k);
    }
  }

  lemma AtTwo(v: Value, k1: string, k2: string)
    ensures At(v, [k1, k2]) == if v.Dict? && k1 in Keys(v.entries) then At(Get(v.entries, k1).value, [k2]) else None
  {
    assert [k1, k2][1..] == [k2];
  }

  lemma AtThree(v: Value, k1: string, k2: string, k3: string)
    ensures At(v, [k1, k2, k3]) == if v.Dict? && k1 in Keys(v.entries) then At(Get(v.entries, k1).value, [k2, k3]) else None
  {
    assert [k1, k2, k3][1..] == [k2, k3];
  }

  /** The line lookup succeeds exactly on resolvable locations. */
  lemma IssueLineSucceeds(location: seq<Entry>)
    ensures IssueLine(location).Success? <==> LineResolvable(Dict(location))
  {
    var loc := Dict(location);
    AtOne(loc, "lines");
    AtOne(loc, "positions");
    AtTwo(loc, "lines", "begin");
    AtTwo(loc, "positions", "begin");
    AtThree(loc, "lines", "begin", "line");
    if Get(location, "lines").Some? {
      var lines := Get(location, "lines").value;
      AtOne(lines, "begin");
      if Index(lines, "begin").Success? {
        AtOne(Index(lines, "begin").value, "line");
        AtTwo(lines, "begin", "line");
      }
    }
    if Get(location, "positions").Some? {
      AtOne(Get(location, "positions").value, "begin");
    }
  }

  /** `massage_issue` raises exactly on records that are not readable
      codeclimate issues. */
  lemma MassageSucceeds(env: Env, issue: Value)
    ensures Massage(env, issue).Success? <==> CodeClimateIssue(issue)
  {
    AtOne(issue, "severity");
    AtOne(issue, "check_name");
    AtOne(issue, "description");
    AtOne(issue, "location");
    AtTwo(issue, "location", "path");
    if issue.Dict? && "location" in Keys(issue.entries) {
      var location := Get(issue.entries, "location").value;
      AtOne(location, "path");
      if location.Dict? {
        IssueLineSucceeds(location.entries);
      }
    }
    if issue.Dict? && "check_name" in Keys(issue.entries) && Get(issue.entries, "check_name").value.Str? {
      var checkName := Get(issue.entries, "check_name").value.s;
      SplitHasSecondPiece(checkName, ']');
    }
  }

  /** The choice `IssueLine` makes, stated on paths into the location. */
  lemma IssueLineChoice(location: seq<Entry>)
    requires IssueLine(location).Success?
    ensures var loc := Dict(location);
            var line := Some(IssueLine(location).value);
            && (IsMappingAt(loc, ["lines", "begin"]) ==> line == At(loc, ["lines", "begin", "line"]))
            && (!IsMappingAt(loc, ["lines", "begin"]) && IsMappingAt(loc, ["positions", "begin"]) ==>
                  line == At(loc, ["positions", "begin"]))
            && (!IsMappingAt(loc, ["lines", "begin"]) && !IsMappingAt(loc, ["positions", "begin"]) ==>
                  line == At(loc, ["lines", "begin"]))
  {
    var loc := Dict(location);
    AtOne(loc, "lines");
    AtOne(loc, "positions");
    AtTwo(loc, "lines", "begin");
    AtTwo(loc, "positions", "begin");
    AtThree(loc, "lines", "begin", "line");
    if Get(location, "lines").Some? {
      var lines := Get(location, "lines").value;
      AtOne(lines, "begin");
      if Index(lines, "begin").Success? {
        AtOne(Index(lines, "begin").value, "line");
        AtTwo(lines, "begin", "line");
      }
    }
    if Get(location, "positions").Some? {
      AtOne(Get(location, "positions").value, "begin");
    }
  }

  /** `__line` takes `lines.begin.line` first, then a mapping
      `positions.begin` (the whole mapping), then `lines.begin`. */
  lemma MassageLine(env: Env, issue: Value)
    ensures Massage(env, issue).Success? ==> IsMappingAt(issue, ["location"])
    ensures Massage(env, issue).Success? ==>
              var location := At(issue, ["location"]).value;
              var line := Get(Massage(env, issue).value.entries, "__line");
              && (IsMappingAt(location, ["lines", "begin"]) ==> line == At(location, ["lines", "begin", "line"]))
              && (!IsMappingAt(location, ["lines", "begin"]) && IsMappingAt(location, ["positions", "begin"]) ==>
                    line == At(location, ["positions", "begin"]))
              && (!IsMappingAt(location, ["lines", "begin"]) && !IsMappingAt(location, ["positions", "begin"]) ==>
                    line == At(location, ["lines", "begin"]))
  {
    if Massage(env, issue).Success? {
      var f := ReadIssue(env, issue).value;
      assert Get(Massage(env, issue).value.entries, "__line") == Some(f.line);
      AtOne(issue, "location");
      var location := Get(issue.entries, "location").value;
      IssueLineChoice(location.entries);
    }
  }

  /** `__message`: after the first `]` of a check name in the 6.1 form
      "[rule-id] message", stripped; otherwise the `description`. */
  lemma MassageMessage(env: Env, issue: Value)
    ensures Massage(env, issue).Success? ==> IsStrAt(issue, ["check_name"])
    ensures Massage(env, issue).Success? ==>
              var checkName := At(issue, ["check_name"]).value.s;
              var message := Get(Massage(env, issue).value.entries, "__message");
              && ("[" <= checkName ==> message == Some(Str(Strip(Split(checkName, ']')[1]))))
              && (!("[" <= checkName) ==> message == At(issue, ["description"]))
  {
    if Massage(env, issue).Success? {
      var f := ReadIssue(env, issue).value;
      assert Get(Massage(env, issue).value.entries, "__message") == Some(f.message);
      AtOne(issue, "check_name");
      AtOne(issue, "description");
    }
  }

  /** Splitting at the first separator. */
  lemma {:induction false} SplitAtFirst(a: string, sep: char, b: string)
    requires sep !in a
    ensures Split(a + [sep] + b, sep) == [a] + Split(b, sep)
  {
    var s := a + [sep] + b;
    if a == [] {
      assert s[1..] == b;
    } else {
      assert s[0] == a[0] && s[1..] == a[1..] + [sep] + b;
      SplitAtFirst(a[1..], sep, b);
      assert a == [a[0]] + a[1..];
    }
  }

  /** Text without the separator is one piece. */
  lemma {:induction false} SplitNone(b: string, sep: char)
    requires sep !in b
    ensures Split(b, sep) == [b]
  {
    if b != [] {
      assert b[0] != sep && sep !in b[1..];
      SplitNone(b[1..], sep);
      assert b == [b[0]] + b[1..];
    }
  }

  /** For a check name "[rule-id]message" the message is the stripped text
      after the rule id. */
  lemma LegacyCheckName(rule: string, text: string)
    requires ']' !in rule && ']' !in text
    ensures LegacyMessage("[" + rule + "]" + text) == Success(Strip(text))
  {
    assert "[" + rule + "]" + text == ("[" + rule) + [']'] + text;
    SplitAtFirst("[" + rule, ']', text);
    SplitNone(text, ']');
  }

  /** Of the five keys `massage_issue` adds only `issue_path` is shown. */
  lemma FilterAnnotate(es: seq<Entry>, severity: Value, message: Value, path: Value, line: Value, issuePath: Value)
    ensures FilterContentKeys(Annotate(es, severity, message, path, line, issuePath))
              == Put(FilterContentKeys(es), "issue_path", issuePath)
  {
    assert "__severity"[2] == 's' && "__message"[2] == 'm' && "__path"[2] == 'p' && "__line"[2] == 'l';
    assert "issue_path"[0] == 'i' && "__severity"[0] == '_';
    var es0 := Put(es, "__severity", severity);
    var es1 := Put(es0, "__message", message);
    var es2 := Put(es1, "__path", path);
    var es3 := Put(es2, "__line", line);
    assert !Shown("__severity") && !Shown("__message") && !Shown("__path") && !Shown("__line");
    assert Shown("issue_path") by { assert "issue_path"[0] != "__"[0]; }
    FilterPut(es, "__severity", severity);
    FilterPut(es0, "__message", message);
    FilterPut(es1, "__path", path);
    FilterPut(es2, "__line", line);
    FilterPut(es3, "issue_path", issuePath);
    assert FilterContentKeys(es3) == FilterContentKeys(es);
    AnnotateStores(es, severity, message, path, line, issuePath);
  }

  /** `Annotate` is the five stores made one after another. */
  lemma AnnotateStores(es: seq<Entry>, severity: Value, message: Value, path: Value, line: Value, issuePath: Value)
    ensures Annotate(es, severity, message, path, line, issuePath)
              == Put(Put(Put(Put(Put(es, "__severity", severity), "__message", message), "__path", path),
                         "__line", line), "issue_path", issuePath)
  {
    var kvs := [Entry("__severity", severity), Entry("__message", message), Entry("__path", path),
                Entry("__line", line), Entry("issue_path", issuePath)];
    var e0 := Put(es, "__severity", severity);
    var e1 := Put(e0, "__message", message);
    var e2 := Put(e1, "__path", path);
    var e3 := Put(e2, "__line", line);
    var e4 := Put(e3, "issue_path", issuePath);
    assert PutAll(e4, kvs[5..]) == e4;
    assert PutAll(e3, kvs[4..]) == PutAll(e4, kvs[5..]);
    assert PutAll(e2, kvs[3..]) == PutAll(e3, kvs[4..]);
    assert PutAll(e1, kvs[2..]) == PutAll(e2, kvs[3..]);
    assert PutAll(e0, kvs[1..]) == PutAll(e1, kvs[2..]);
    assert PutAll(es, kvs) == PutAll(e0, kvs[1..]);
  }

  /** The content view of a massaged issue shows the original's visible
      entries, unchanged and in order, plus `issue_path`. */
  lemma MassageContent(env: Env, issue: Value)
    ensures Massage(env, issue).Success? ==>
              FilterContentKeys(Massage(env, issue).value.entries)
                == Put(FilterContentKeys(issue.entries), "issue_path",
                       Get(Massage(env, issue).value.entries, "issue_path").value)
  {
    if Massage(env, issue).Success? {
      var f := ReadIssue(env, issue).value;
      var issuePath := Str(f.path + ":" + Display(env, f.line));
      var out := Annotate(issue.entries, Str(f.severity), f.message, Str(f.path), f.line, issuePath);
      assert Massage(env, issue).value.entries == out;
      FilterAnnotate(issue.entries, Str(f.severity), f.message, Str(f.path), f.line, issuePath);
    }
  }
}
