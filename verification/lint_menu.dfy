/** The issues menu of the lint action (actions/lint.py): pulling the JSON
    line out of ansible-lint's output, building and ordering the menu,
    the modification-time check that decides on a rerun, and the
    ansible-lint command line. */
module LintMenu {
  import opened Wrappers
  import opened Text
  import opened Values
  import opened LintIssues

  // ---------------------------------------------------------------------
  // _pull_out_json_or_fatal
  // ---------------------------------------------------------------------

  /** The last non-empty line of `lines`, if there is one. */
  function LastNonEmpty(lines: seq<string>): (r: Option<string>)
    ensures r.None? <==> forall i :: 0 <= i < |lines| ==> lines[i] == ""
    ensures r.Some? ==>
              r.value != ""
              && exists i :: 0 <= i < |lines| && lines[i] == r.value
                   && forall j :: i < j < |lines| ==> lines[j] == ""
  {
    if lines == [] then None
    else if lines[|lines| - 1] != "" then Some(lines[|lines| - 1])
    else LastNonEmpty(lines[..|lines| - 1])
  }

  /** `_pull_out_json_or_fatal`: the last non-empty line of the output. */
  function PullOutJson(stdout: string): (r: Option<string>)
    ensures r.None? <==> forall i :: 0 <= i < |SplitLines(stdout)| ==> SplitLines(stdout)[i] == ""
    ensures r.Some? ==> r.value != "" && NoLineBreak(r.value)
    ensures r.Some? ==>
              exists i :: 0 <= i < |SplitLines(stdout)| && SplitLines(stdout)[i] == r.value
                          && forall j :: i < j < |SplitLines(stdout)| ==> SplitLines(stdout)[j] == ""
  {
    var lines := SplitLines(stdout);
    var r := LastNonEmpty(lines);
    assert lines == SplitLines(stdout);
    assert r.None? ==> forall i :: 0 <= i < |SplitLines(stdout)| ==> SplitLines(stdout)[i] == "";
    assert r.Some? ==> !forall i :: 0 <= i < |SplitLines(stdout)| ==> SplitLines(stdout)[i] == "";
    r
  }

  /** Warnings printed before the JSON do not hide it: after any output
      that ends a line, a non-empty final line is what is pulled out. */
  lemma PullOutJsonAfterWarnings(warnings: string, json: string)
    requires warnings != [] && IsLineBreak(warnings[|warnings| - 1])
    requires json != [] && NoLineBreak(json)
    ensures PullOutJson(warnings + json) == Some(json)
  {
    LastLineAfterBreak(warnings, json);
  }

  // ---------------------------------------------------------------------
  // Stable descending sort
  // ---------------------------------------------------------------------

  predicate NonIncreasing<T>(xs: seq<T>, key: T -> int) {
    forall i, j :: 0 <= i < j < |xs| ==> key(xs[i]) >= key(xs[j])
  }

  /** The elements of `xs` whose key is `k`, in order. */
  function WithKey<T>(xs: seq<T>, key: T -> int, k: int): seq<T> {
    if xs == [] then []
    else if key(xs[0]) == k then [xs[0]] + WithKey(xs[1..], key, k)
    else WithKey(xs[1..], key, k)
  }

  /** Insert `x` before the first element whose key is not greater. */
  function Insert<T>(x: T, xs: seq<T>, key: T -> int): (r: seq<T>)
    requires NonIncreasing(xs, key)
    ensures |r| == |xs| + 1
    ensures r[0] == x || (xs != [] && r[0] == xs[0])
    ensures NonIncreasing(r, key)
  {
    if xs == [] || key(xs[0]) <= key(x) then [x] + xs
    else
      var tail := Insert(x, xs[1..], key);
      var r := [xs[0]] + tail;
      assert forall j :: 1 <= j < |r| ==> key(r[j]) <= key(tail[0]) <= key(xs[0]);
      r
  }

  lemma {:induction false} InsertPermutes<T>(x: T, xs: seq<T>, key: T -> int)
    requires NonIncreasing(xs, key)
    ensures multiset(Insert(x, xs, key)) == multiset(xs) + multiset{x}
  {
    if xs != [] && key(xs[0]) > key(x) {
      InsertPermutes(x, xs[1..], key);
      assert xs == [xs[0]] + xs[1..];
    }
  }

  /** `sorted(xs, key=key, reverse=True)`: Python's sort is stable, and
      with `reverse=True` elements with equal keys keep their order. */
  function SortDescending<T>(xs: seq<T>, key: T -> int): (r: seq<T>)
    ensures NonIncreasing(r, key)
    ensures multiset(r) == multiset(xs)
    ensures |r| == |xs|
  {
    if xs == [] then []
    else
      var sorted := SortDescending(xs[1..], key);
      InsertPermutes(xs[0], sorted, key);
      assert xs == [xs[0]] + xs[1..];
      Insert(xs[0], sorted, key)
  }

  lemma {:induction false} InsertWithKey<T>(x: T, xs: seq<T>, key: T -> int, k: int)
    requires NonIncreasing(xs, key)
    ensures WithKey(Insert(x, xs, key), key, k)
              == if key(x) == k then [x] + WithKey(xs, key, k) else WithKey(xs, key, k)
  {
    if xs != [] && key(xs[0]) > key(x) {
      InsertWithKey(x, xs[1..], key, k);
      var r := Insert(x, xs, key);
      assert r[0] == xs[0] && r[1..] == Insert(x, xs[1..], key);
      if key(x) == k {
        assert key(xs[0]) != k;
      }
    }
  }

  /** Stability: the elements of each key keep their input order. */
  lemma {:induction false} SortDescendingStable<T>(xs: seq<T>, key: T -> int, k: int)
    ensures WithKey(SortDescending(xs, key), key, k) == WithKey(xs, key, k)
  {
    if xs != [] {
      SortDescendingStable(xs[1..], key, k);
      InsertWithKey(xs[0], SortDescending(xs[1..], key), key, k);
    }
  }

  // ---------------------------------------------------------------------
  // Ordering the issues by severity
  // ---------------------------------------------------------------------

  /** `[f(x) for x in xs]` for an `f` that may raise: the first element
      that raises decides the error. */
  function MapAll<A, B, E>(f: A -> Result<B, E>, xs: seq<A>): (r: Result<seq<B>, E>)
    ensures r.Success? <==> forall i :: 0 <= i < |xs| ==> f(xs[i]).Success?
    ensures r.Success? ==>
              |r.value| == |xs| && forall i :: 0 <= i < |xs| ==> r.value[i] == f(xs[i]).value
    ensures r.Failure? ==>
              exists i :: 0 <= i < |xs| && f(xs[i]).Failure? && r.error == f(xs[i]).error
                          && forall j :: 0 <= j < i ==> f(xs[j]).Success?
  {
    if xs == [] then Success([])
    else
      match f(xs[0])
      case Failure(e) => Failure(e)
      case Success(first) =>
        var rest := MapAll(f, xs[1..]);
        assert forall i :: 1 <= i < |xs| ==> xs[i] == xs[1..][i - 1];
        if rest.Failure? then
          assert exists i :: 0 <= i < |xs[1..]| && f(xs[1..][i]).Failure? && rest.error == f(xs[1..][i]).error
                             && forall j :: 0 <= j < i ==> f(xs[1..][j]).Success?;
          Failure(rest.error)
        else
          Success([first] + rest.value)
  }

  /** The severity string of a massaged issue (always a string there). */
  function SeverityOf(issue: Value): string {
    var s := At(issue, ["severity"]);
    if s.Some? && s.value.Str? then s.value.s else ""
  }

  /** The sort key as written, `Severity[i["severity"].upper()]`: a lookup
      by member name, which raises `KeyError` for an unexpected severity. */
  function RankAsWritten(issue: Value): (r: Result<int, LintError>)
    ensures r.Success? <==> SeverityByName(Upper(SeverityOf(issue))).Some?
    ensures r.Success? ==> r.value == Level(SeverityByName(Upper(SeverityOf(issue))).value)
    ensures r.Failure? ==> r.error == KeyError(Upper(SeverityOf(issue)))
  {
    var name := Upper(SeverityOf(issue));
    match SeverityByName(name)
    case Some(s) => Success(Level(s))
    case None => Failure(KeyError(name))
  }

  /** The intended key: the member's value, and `UNKNOWN` (-1) for a
      severity that names no member, as the enum's `_missing_` promises. */
  function Rank(issue: Value): (r: int)
    ensures RankAsWritten(issue).Success? ==> r == RankAsWritten(issue).value
    ensures RankAsWritten(issue).Failure? ==> r == Level(Unknown)
    ensures r == Level(Unknown) || r >= Level(Info)
  {
    match SeverityByName(Upper(SeverityOf(issue)))
    case Some(s) => Level(s)
    case None => Level(Unknown)
  }

  /** The issues menu order: by severity, highest first, ties in input
      order. */
  function SortIssues(issues: seq<Value>): (r: seq<Value>)
    ensures NonIncreasing(r, Rank)
    ensures multiset(r) == multiset(issues)
    ensures forall k :: WithKey(r, Rank, k) == WithKey(issues, Rank, k)
  {
    forall k
      ensures WithKey(SortDescending(issues, Rank), Rank, k) == WithKey(issues, Rank, k)
    {
      SortDescendingStable(issues, Rank, k);
    }
    SortDescending(issues, Rank)
  }

  /** The issues menu order as written: computing the keys raises at the
      first issue whose severity names no member; where every key exists
      the order is the intended one. */
  function SortIssuesAsWritten(issues: seq<Value>): (r: Result<seq<Value>, LintError>)
    ensures r.Failure? <==> exists i :: 0 <= i < |issues| && RankAsWritten(issues[i]).Failure?
    ensures r.Failure? ==>
              exists i :: 0 <= i < |issues| && RankAsWritten(issues[i]).Failure?
                          && r.error == KeyError(Upper(SeverityOf(issues[i])))
                          && forall j :: 0 <= j < i ==> RankAsWritten(issues[j]).Success?
    ensures r.Success? ==> r.value == SortIssues(issues)
  {
    match MapAll(RankAsWritten, issues)
    case Failure(e) => Failure(e)
    case Success(_) => Success(SortDescending(issues, Rank))
  }

  /** A severity ansible-lint might add later ("warning", say) makes the
      as-written menu raise instead of listing the issue last. */
  lemma UnexpectedSeverityRaises()
    ensures SortIssuesAsWritten([Dict([Entry("severity", Str("warning"))])])
              == Failure(KeyError("WARNING"))
  {
    var issue := Dict([Entry("severity", Str("warning"))]);
    assert At(issue, ["severity"]) == Some(Str("warning")) by {
      assert Get(issue.entries, "severity") == Some(Str("warning"));
      assert ["severity"][1..] == [];
    }
    assert Upper("warning") == "WARNING";
    assert RankAsWritten(issue).Failure?;
  }

  /** In a non-increasing sequence a strictly greater key comes first. */
  lemma GreaterFirst<T>(xs: seq<T>, key: T -> int, i: nat, j: nat)
    requires NonIncreasing(xs, key)
    requires i < |xs| && j < |xs| && key(xs[i]) > key(xs[j])
    ensures i < j
  {
  }

  /** In the intended order every issue of an unexpected severity comes
      after every issue of a known severity other than `UNKNOWN`. */
  lemma UnknownSeverityLast(issues: seq<Value>)
    ensures var r := SortIssues(issues);
            forall i, j :: 0 <= i < |r| && 0 <= j < |r| && Rank(r[i]) != Level(Unknown) && RankAsWritten(r[j]).Failure?
                           ==> i < j
  {
    var r := SortIssues(issues);
    LowestLast(r, Rank, Level(Unknown));
    assert forall j :: 0 <= j < |r| && RankAsWritten(r[j]).Failure? ==> Rank(r[j]) == Level(Unknown);
  }

  /** In a non-increasing sequence whose keys are all at least `low`, the
      items with key `low` come after all the others. */
  lemma LowestLast<T>(xs: seq<T>, key: T -> int, low: int)
    requires NonIncreasing(xs, key)
    requires forall i :: 0 <= i < |xs| ==> key(xs[i]) >= low
    ensures forall i, j :: 0 <= i < |xs| && 0 <= j < |xs| && key(xs[i]) != low && key(xs[j]) == low ==> i < j
  {
    forall i, j | 0 <= i < |xs| && 0 <= j < |xs| && key(xs[i]) != low && key(xs[j]) == low
      ensures i < j
    {
      GreaterFirst(xs, key, i, j);
    }
  }

  // ---------------------------------------------------------------------
  // _build_issues_menu
  // ---------------------------------------------------------------------

  /** The text by which a missing ansible-lint executable is recognised. */
  const NotFoundText: string := "ansible-lint: No such file or directory"

  /** How one run of `_build_issues_menu` ends. */
  datatype MenuOutcome =
    | NotInstalled
    | NoJson
    | Unparsable
      /** The menu, and whether "no lint issues found" is announced. */
    | Menu(issues: seq<Value>, congratulate: bool)

  /** The current issue count each outcome leaves behind. */
  function IssueCount(o: MenuOutcome): nat {
    if o.Menu? then |o.issues| else 0
  }

  /** Iterating a decoded JSON value: a list's items, a dict's keys, a
      string's characters; `len()` of anything else raises. */
  function Items(v: Value): (r: Result<seq<Value>, LintError>)
    ensures r.Failure? <==> !(v.List? || v.Tuple? || v.Dict? || v.Str?)
    ensures r.Failure? ==> r.error == TypeError
    ensures v.List? || v.Tuple? ==> r == Success(v.items)
    ensures v.Dict? ==>
              && r.Success? && |r.value| == |KeySeq(v.entries)|
              && forall i :: 0 <= i < |r.value| ==> r.value[i] == Str(KeySeq(v.entries)[i])
    ensures v.Str? ==>
              && r.Success? && |r.value| == |v.s|
              && forall i :: 0 <= i < |r.value| ==> r.value[i].Str? && r.value[i].s == [v.s[i]]
  {
    match v
    case List(items) => Success(items)
    case Tuple(items) => Success(items)
    case Dict(es) => Success(seq(|es|, i requires 0 <= i < |es| => Str(es[i].key)))
    case Str(s) => Success(seq(|s|, i requires 0 <= i < |s| => Str([s[i]])))
    case _ => Failure(TypeError)
  }

  /** `[massage_issue(issue) for issue in raw_issues]`. */
  function MassageAll(env: Env, raw: seq<Value>): (r: Result<seq<Value>, LintError>)
    ensures r.Success? <==> forall i :: 0 <= i < |raw| ==> Massage(env, raw[i]).Success?
    ensures r.Success? ==>
              |r.value| == |raw| && forall i :: 0 <= i < |raw| ==> r.value[i] == Massage(env, raw[i]).value
    ensures r.Failure? ==>
              exists i :: 0 <= i < |raw| && Massage(env, raw[i]).Failure? && r.error == Massage(env, raw[i]).error
                          && forall j :: 0 <= j < i ==> Massage(env, raw[j]).Success?
  {
    MapAll(issue => Massage(env, issue), raw)
  }

  /** `_build_issues_menu`, given the output and return code of the run and
      `json.loads` as `decode` (`None` when it raises). */
  function BuildIssuesMenu(env: Env, output: string, returnCode: int, decode: string -> Option<Value>)
    : (r: Result<MenuOutcome, LintError>)
    ensures r == Success(NotInstalled) <==> returnCode != 0 && Contains(output, NotFoundText)
    ensures r == Success(NoJson) <==>
              !(returnCode != 0 && Contains(output, NotFoundText)) && PullOutJson(output).None?
    ensures MassagedOutput(env, output, returnCode, decode).Some? ==>
              var issues := MassagedOutput(env, output, returnCode, decode).value;
              (r.Failure? <==> exists i :: 0 <= i < |issues| && RankAsWritten(issues[i]).Failure?)
    ensures r.Success? && r.value.Menu? ==>
              && PullOutJson(output).Some?
              && decode(PullOutJson(output).value).Some?
              && Items(decode(PullOutJson(output).value).value).Success?
              && var raw := Items(decode(PullOutJson(output).value).value).value;
                 && MassageAll(env, raw).Success?
                 && |r.value.issues| == |raw|
                 && (r.value.congratulate <==> |raw| == 0)
                 && NonIncreasing(r.value.issues, Rank)
                 && multiset(r.value.issues) == multiset(MassageAll(env, raw).value)
                 && r.value.issues == SortIssues(MassageAll(env, raw).value)
                 && forall i :: 0 <= i < |r.value.issues| ==> RankAsWritten(r.value.issues[i]).Success?
    ensures r == Success(Unparsable) <==>
              && !(returnCode != 0 && Contains(output, NotFoundText))
              && PullOutJson(output).Some? && decode(PullOutJson(output).value).None?
    ensures !(returnCode != 0 && Contains(output, NotFoundText))
            && PullOutJson(output).Some? && decode(PullOutJson(output).value).Some?
            && Items(decode(PullOutJson(output).value).value).Failure? ==>
              r == Failure(TypeError)
    ensures !(returnCode != 0 && Contains(output, NotFoundText))
            && PullOutJson(output).Some? && decode(PullOutJson(output).value).Some?
            && Items(decode(PullOutJson(output).value).value).Success?
            && MassageAll(env, Items(decode(PullOutJson(output).value).value).value).Failure? ==>
              r == Failure(MassageAll(env, Items(decode(PullOutJson(output).value).value).value).error)
  {
    if returnCode != 0 && Contains(output, NotFoundText) then Success(NotInstalled)
    else
      match PullOutJson(output)
      case None => Success(NoJson)
      case Some(line) =>
        match decode(line)
        case None => Success(Unparsable)
        case Some(decoded) =>
          var raw :- Items(decoded);
          var issues :- MassageAll(env, raw);
          SortedMenu(issues, |raw| == 0)
  }

  /** The sort of `_build_issues_menu` as written, and the menu it gives. */
  function SortedMenu(issues: seq<Value>, congratulate: bool): (r: Result<MenuOutcome, LintError>)
    ensures r.Failure? <==> exists i :: 0 <= i < |issues| && RankAsWritten(issues[i]).Failure?
    ensures r.Success? ==>
              && r.value.Menu? && r.value.congratulate == congratulate
              && |r.value.issues| == |issues|
              && NonIncreasing(r.value.issues, Rank)
              && multiset(r.value.issues) == multiset(issues)
              && forall i :: 0 <= i < |r.value.issues| ==> RankAsWritten(r.value.issues[i]).Success?
    ensures r.Success? ==> r.value.issues == SortIssues(issues)
  {
    var sorted :- SortIssuesAsWritten(issues);
    assert forall i :: 0 <= i < |sorted| ==> sorted[i] in multiset(issues);
    Success(Menu(sorted, congratulate))
  }

  /** The massaged issues of a run that gets as far as the sort. */
  function MassagedOutput(env: Env, output: string, returnCode: int, decode: string -> Option<Value>)
    : Option<seq<Value>>
  {
    if returnCode != 0 && Contains(output, NotFoundText) then None
    else
      match PullOutJson(output)
      case None => None
      case Some(line) =>
        match decode(line)
        case None => None
        case Some(decoded) =>
          match Items(decoded)
          case Failure(_) => None
          case Success(raw) =>
            match MassageAll(env, raw)
            case Failure(_) => None
            case Success(issues) => Some(issues)
  }

  // ---------------------------------------------------------------------
  // _rerun_needed
  // ---------------------------------------------------------------------

  /** What `time_stamp_for_file` reports for a path: seconds since the
      epoch and an ISO text, each `None` when the file is gone. */
  datatype Stamp = Stamp(unix: Option<real>, iso: Option<string>)

  /** What the timestamp pass uses of a menu entry: its path, the entry
      with a stamp written into it, and whether a stamp means a change
      (or the comparison raises). */
  datatype Stamping<!T, E> = Stamping(pathOf: T -> string, stamp: (T, Stamp) -> T, changed: (T, Stamp) -> Result<bool, E>)

  /** Writing a stamp leaves the entry's path alone. */
  ghost predicate KeepsPath<T(!new), E>(ops: Stamping<T, E>) {
    forall x, st :: ops.pathOf(ops.stamp(x, st)) == ops.pathOf(x)
  }

  /** `changed` for the stamp of the entry's own file. */
  function DueOver<T, E>(ops: Stamping<T, E>, stampOf: string -> Stamp, x: T): Result<bool, E> {
    ops.changed(x, stampOf(ops.pathOf(x)))
  }

  /** Entry `i` of `menu` once the paths in `done` have been stamped. */
  function StampedEntry<T, E>(ops: Stamping<T, E>, stampOf: string -> Stamp, menu: seq<T>, done: set<string>, i: nat): T
    requires i < |menu|
  {
    if ops.pathOf(menu[i]) in done then ops.stamp(menu[i], stampOf(ops.pathOf(menu[i]))) else menu[i]
  }

  datatype Rerun<T> = Rerun(menu: seq<T>, rerun: bool, queried: seq<string>)

  predicate Distinct(xs: seq<string>) {
    forall i, j :: 0 <= i < j < |xs| ==> xs[i] != xs[j]
  }

  /** The inner loop of `_rerun_needed`: stamp every entry whose path is
      `p`, reading each one's previous timestamp before overwriting it. */
  method StampPath<T(!new), E>(ops: Stamping<T, E>, stampOf: string -> Stamp, menu: seq<T>, out: seq<T>, p: string, ghost done: set<string>)
    returns (next: seq<T>, changed: Result<bool, E>)
    requires KeepsPath(ops)
    requires p !in done
    requires |out| == |menu| && forall i :: 0 <= i < |menu| ==> out[i] == StampedEntry(ops, stampOf, menu, done, i)
    ensures changed.Success? <==>
              forall i :: 0 <= i < |menu| && ops.pathOf(menu[i]) == p ==> DueOver(ops, stampOf, menu[i]).Success?
    ensures changed.Success? ==>
              && |next| == |menu|
              && forall i :: 0 <= i < |menu| ==> next[i] == StampedEntry(ops, stampOf, menu, done + {p}, i)
    ensures changed.Success? ==>
              (changed.value <==>
                 exists i :: 0 <= i < |menu| && ops.pathOf(menu[i]) == p && DueOver(ops, stampOf, menu[i]) == Success(true))
  {
    next := out;
    var st := stampOf(p);
    var any := false;
    for j := 0 to |menu|
      invariant |next| == |menu|
      invariant forall i :: 0 <= i < j ==> next[i] == StampedEntry(ops, stampOf, menu, done + {p}, i)
      invariant forall i :: j <= i < |menu| ==> next[i] == out[i]
      invariant forall i :: 0 <= i < j && ops.pathOf(menu[i]) == p ==> DueOver(ops, stampOf, menu[i]).Success?
      invariant any <==>
                  exists i :: 0 <= i < j && ops.pathOf(menu[i]) == p && DueOver(ops, stampOf, menu[i]) == Success(true)
    {
      assert next[j] == StampedEntry(ops, stampOf, menu, done, j);
      if ops.pathOf(next[j]) != p {
        continue;
      }
      assert next[j] == menu[j];
      var due := ops.changed(next[j], st);
      next := next[j := ops.stamp(next[j], st)];
      if due.Failure? {
        return next, Failure(due.error);
      }
      any := any || due.value;
    }
    return next, Success(any);
  }

  /** The two loops of `_rerun_needed` over entries of any type. */
  method StampAll<T(!new), E>(ops: Stamping<T, E>, stampOf: string -> Stamp, menu: seq<T>) returns (r: Result<Rerun<T>, E>)
    requires KeepsPath(ops)
    ensures r.Success? <==> forall i :: 0 <= i < |menu| ==> DueOver(ops, stampOf, menu[i]).Success?
    ensures r.Success? ==>
              && |r.value.menu| == |menu|
              && forall i :: 0 <= i < |menu| ==>
                   r.value.menu[i] == ops.stamp(menu[i], stampOf(ops.pathOf(menu[i])))
    ensures r.Success? ==>
              (r.value.rerun <==> exists i :: 0 <= i < |menu| && DueOver(ops, stampOf, menu[i]) == Success(true))
    ensures r.Success? ==>
              && Distinct(r.value.queried)
              && forall p :: p in r.value.queried <==> exists i :: 0 <= i < |menu| && ops.pathOf(menu[i]) == p
  {
    var out := menu;
    var rerun := false;
    var checked: seq<string> := [];
    ghost var done: set<string> := {};
    for o := 0 to |menu|
      invariant |out| == |menu|
      invariant forall i :: 0 <= i < |menu| ==> out[i] == StampedEntry(ops, stampOf, menu, done, i)
      invariant forall i :: 0 <= i < |menu| && ops.pathOf(menu[i]) in done ==> DueOver(ops, stampOf, menu[i]).Success?
      invariant rerun <==>
                  exists i :: 0 <= i < |menu| && ops.pathOf(menu[i]) in done && DueOver(ops, stampOf, menu[i]) == Success(true)
      invariant Distinct(checked)
      invariant forall q :: q in checked <==> q in done
      invariant forall q :: q in done <==> exists i :: 0 <= i < o && ops.pathOf(menu[i]) == q
    {
      assert out[o] == StampedEntry(ops, stampOf, menu, done, o);
      var p := ops.pathOf(out[o]);
      if p in checked {
        continue;
      }
      checked := checked + [p];
      var next, changed := StampPath(ops, stampOf, menu, out, p, done);
      if changed.Failure? {
        return Failure(changed.error);
      }
      out := next;
      rerun := rerun || changed.value;
      done := done + {p};
    }
    forall i | 0 <= i < |menu|
      ensures ops.pathOf(menu[i]) in done
    {
    }
    return Success(Rerun(out, rerun, checked));
  }

  /** A menu entry carries the string `__path` that `massage_issue` set. */
  predicate HasPath(issue: Value) {
    issue.Dict? && Get(issue.entries, "__path").Some? && Get(issue.entries, "__path").value.Str?
  }

  /** `issue["__path"]` (empty for an entry without one). */
  function PathOf(issue: Value): string {
    if HasPath(issue) then Get(issue.entries, "__path").value.s else ""
  }

  /** The issue with `last_modified` and `__last_modified` set. */
  function StampIssue(issue: Value, st: Stamp): (r: Value)
    ensures issue.Dict? ==> r.Dict?
    ensures issue.Dict? ==> Get(r.entries, "last_modified") == Some(if st.iso.Some? then Str(st.iso.value) else Null)
    ensures issue.Dict? ==> Get(r.entries, "__last_modified") == Some(if st.unix.Some? then Float(st.unix.value) else Null)
    ensures issue.Dict? ==>
              forall k :: k != "last_modified" && k != "__last_modified" ==> Get(r.entries, k) == Get(issue.entries, k)
  {
    if issue.Dict? then
      var es := Put(issue.entries, "last_modified", if st.iso.Some? then Str(st.iso.value) else Null);
      Dict(Put(es, "__last_modified", if st.unix.Some? then Float(st.unix.value) else Null))
    else issue
  }

  lemma StampKeepsPath()
    ensures forall issue, st :: PathOf(StampIssue(issue, st)) == PathOf(issue)
  {
    forall issue, st
      ensures PathOf(StampIssue(issue, st)) == PathOf(issue)
    {
      if issue.Dict? {
        assert "__path"[2] != "last_modified"[2];
        assert "__path"[2] != "__last_modified"[2];
        assert Get(StampIssue(issue, st).entries, "__path") == Get(issue.entries, "__path");
      }
    }
  }

  /** Whether one issue calls for a rerun: its file has a timestamp, and
      there is no previous one or the previous one is strictly smaller.
      Comparing with a previous value that is not a number raises. */
  function Changed(issue: Value, st: Stamp): Result<bool, LintError> {
    if !issue.Dict? then Failure(AttributeError("get"))
    else if st.unix.None? then Success(false)
    else
      var now := st.unix.value;
      match Get(issue.entries, "__last_modified")
      case None => Success(true)
      case Some(previous) =>
        match previous
        case Null => Success(true)
        case Float(p) => Success(now > p)
        case Int(p) => Success(now > p as real)
        case Bool(b) => Success(now > if b then 1.0 else 0.0)
        case _ => Failure(TypeError)
  }

  /** `Changed` for the stamp of the issue's own file. */
  function Due(issue: Value, stampOf: string -> Stamp): Result<bool, LintError> {
    Changed(issue, stampOf(PathOf(issue)))
  }

  /** Checking again with the timestamps just written finds no change:
      a file must be modified after the last check to trigger a rerun. */
  lemma UnchangedFileNoRerun(issue: Value, st: Stamp)
    requires issue.Dict?
    ensures Changed(StampIssue(issue, st), st) == Success(false)
  {
  }

  /** `_rerun_needed` on the issues menu. */
  method RerunNeeded(menu: seq<Value>, stampOf: string -> Stamp) returns (r: Result<Rerun<Value>, LintError>)
    requires forall i :: 0 <= i < |menu| ==> HasPath(menu[i])
    ensures r.Success? <==> forall i :: 0 <= i < |menu| ==> Due(menu[i], stampOf).Success?
    ensures r.Success? ==>
              && |r.value.menu| == |menu|
              && forall i :: 0 <= i < |menu| ==>
                   r.value.menu[i] == StampIssue(menu[i], stampOf(PathOf(menu[i])))
    ensures r.Success? ==>
              (r.value.rerun <==> exists i :: 0 <= i < |menu| && Due(menu[i], stampOf) == Success(true))
    ensures r.Success? ==>
              && Distinct(r.value.queried)
              && forall p :: p in r.value.queried <==> exists i :: 0 <= i < |menu| && PathOf(menu[i]) == p
  {
    var ops := Stamping(PathOf, StampIssue, Changed);
    StampKeepsPath();
    r := StampAll(ops, stampOf, menu);
    assert forall x :: DueOver(ops, stampOf, x) == Due(x, stampOf);
  }

  /** Massaged issues carry the `__path` the timestamp check reads. */
  lemma MassagedHasPath(env: Env, issue: Value)
    ensures Massage(env, issue).Success? ==> HasPath(Massage(env, issue).value)
  {
  }

  // ---------------------------------------------------------------------
  // The ansible-lint command line (_run_runner)
  // ---------------------------------------------------------------------

  /** The settings `_run_runner` reads: mode, colour, config file and the
      path to lint (`None` when the setting is not a string). */
  datatype LintSettings = LintSettings(interactive: bool, displayColor: bool, lintConfig: Option<string>, lintables: Option<string>)

  datatype Cmdline =
    | Arguments(args: seq<string>)
      /** The lintables path does not exist: `_fatal` is called and the run
          reports return code 1 (or raises `RuntimeError` outside the
          interactive mode). */
    | MissingLintables(path: string)

  /** The ansible-lint arguments, with path existence as `pathExists`. */
  function LintCommandLine(settings: LintSettings, pathExists: string -> bool): (r: Cmdline)
    ensures r.MissingLintables? <==> settings.lintables.Some? && !pathExists(settings.lintables.value)
    ensures r.Arguments? ==>
              |r.args| == 2 + (if settings.interactive then 3 else if !settings.displayColor then 1 else 0)
                          + (if settings.lintConfig.Some? then 2 else 0)
                          + (if settings.lintables.Some? then 1 else 0)
    ensures r.Arguments? ==> r.args[..2] == ["-qq", "--offline"]
    ensures r.Arguments? && settings.interactive ==> r.args[2..5] == ["--nocolor", "-f", "codeclimate"]
    ensures r.Arguments? && !settings.interactive && !settings.displayColor ==> r.args[2] == "--nocolor"
    ensures r.Arguments? && settings.lintConfig.Some? ==>
              var at := |r.args| - 2 - (if settings.lintables.Some? then 1 else 0);
              r.args[at..at + 2] == ["-c", settings.lintConfig.value]
    ensures r.Arguments? && settings.lintables.Some? ==> r.args[|r.args| - 1] == settings.lintables.value
  {
    var base := ["-qq", "--offline"];
    var color := if settings.interactive then ["--nocolor", "-f", "codeclimate"]
                 else if !settings.displayColor then ["--nocolor"] else [];
    var config := if settings.lintConfig.Some? then ["-c", settings.lintConfig.value] else [];
    match settings.lintables
    case Some(path) =>
      if !pathExists(path) then MissingLintables(path)
      else Arguments(base + color + config + [path])
    case None => Arguments(base + color + config)
  }
}
