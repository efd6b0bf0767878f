/**
 * The file loop of the two daily scripts: walk the listing of the download
 * folder in sorted order, keep the names the script selects, and for each
 * one derive the name of its output file (and, for the enthalpy script, the
 * name of the paired temperature file).  A selected name without an
 * eight-digit run makes `match.groups()` fail and ends the run there.
 */
module DailyPlan {
  import opened Wrappers
  import opened Text
  import opened FileNames

  datatype Script = EnthalpyScript | TemperatureScript

  predicate Selected(script: Script, name: string)
  {
    match script
    case EnthalpyScript => SelectedDewFile(name)
    case TemperatureScript => SelectedTempFile(name)
  }

  function Prefix(script: Script): string
  {
    match script
    case EnthalpyScript => "era5_daily_q_"
    case TemperatureScript => "era5_daily_temp_"
  }

  /** One processed file: its name, the paired temperature file it opens, and the name it writes. */
  datatype Job = Job(source: string, companion: Option<string>, output: string)

  /** The jobs done, in order, and the selected name the run stopped at, if any. */
  datatype Plan = Plan(jobs: seq<Job>, failed: Option<string>)

  function Companion(script: Script, name: string): Option<string>
  {
    match script
    case EnthalpyScript => Some(TempFileName(name))
    case TemperatureScript => None
  }

  /** What a script does with one name: whether it takes it, what it writes, which paired file it opens. */
  datatype Rule = Rule(selected: string -> bool, output: string -> Option<string>, companion: string -> Option<string>)

  function ScriptRule(script: Script): Rule
  {
    Rule(name => Selected(script, name), name => OutputName(Prefix(script), name), name => Companion(script, name))
  }

  /** What the loop does with the remaining names, given in processing order. */
  function PlanSpec(rule: Rule, names: seq<string>): Plan
  {
    if |names| == 0 then Plan([], None)
    else if !rule.selected(names[0]) then PlanSpec(rule, names[1..])
    else
      match rule.output(names[0])
      case None => Plan([], Some(names[0]))
      case Some(out) =>
        var rest := PlanSpec(rule, names[1..]);
        Plan([Job(names[0], rule.companion(names[0]), out)] + rest.jobs, rest.failed)
  }

  /** `for file in sorted(os.listdir(data_folder)): if <selected>: ...`. */
  method RunPlan(script: Script, listing: seq<string>) returns (plan: Plan)
    ensures plan == PlanSpec(ScriptRule(script), SortNames(listing))
  {
    var rule := ScriptRule(script);
    var names := SortNames(listing);
    var jobs: seq<Job> := [];
    for i := 0 to |names|
      invariant PlanSpec(rule, names) == Plan(jobs + PlanSpec(rule, names[i..]).jobs, PlanSpec(rule, names[i..]).failed)
    {
      var name := names[i];
      assert names[i..][1..] == names[i + 1..];
      if rule.selected(name) {
        var out := rule.output(name);
        if out.None? {
          return Plan(jobs, Some(name));
        }
        var job := Job(name, rule.companion(name), out.value);
        assert jobs + PlanSpec(rule, names[i..]).jobs == jobs + [job] + PlanSpec(rule, names[i + 1..]).jobs;
        jobs := jobs + [job];
      }
    }
    assert jobs + [] == jobs;
    return Plan(jobs, None);
  }

  /** The names a rule selects, in the given order. */
  function Filter(rule: Rule, names: seq<string>): (r: seq<string>)
    ensures forall x :: x in r ==> x in names && rule.selected(x)
  {
    if |names| == 0 then []
    else (if rule.selected(names[0]) then [names[0]] else []) + Filter(rule, names[1..])
  }

  function Sources(jobs: seq<Job>): seq<string>
  {
    seq(|jobs|, i requires 0 <= i < |jobs| => jobs[i].source)
  }

  /** The run stopped after the first `k` names: its jobs come from those and its failure, if any, is name `k`. */
  predicate StopsAt(rule: Rule, names: seq<string>, p: Plan, k: nat)
  {
    k <= |names| && Sources(p.jobs) == Filter(rule, names[..k]) &&
    (p.failed.Some? ==> k < |names| && names[k] == p.failed.value) &&
    (p.failed.None? ==> k == |names|)
  }

  /**
   * The jobs are the selected names before the failing one, in processing
   * order, or all selected names when nothing fails.
   */
  lemma {:induction false} PlanStops(rule: Rule, names: seq<string>)
    ensures exists k: nat :: StopsAt(rule, names, PlanSpec(rule, names), k)
  {
    var p := PlanSpec(rule, names);
    if |names| == 0 {
      assert Sources(p.jobs) == [] == Filter(rule, names[..0]);
      assert StopsAt(rule, names, p, 0);
    } else {
      var rest := PlanSpec(rule, names[1..]);
      PlanStops(rule, names[1..]);
      var k: nat :| StopsAt(rule, names[1..], rest, k);
      assert names[..k + 1][1..] == names[1..][..k];
      assert names[..k + 1][0] == names[0];
      if !rule.selected(names[0]) {
        assert Filter(rule, names[..k + 1]) == Filter(rule, names[1..][..k]);
        assert StopsAt(rule, names, p, k + 1);
      } else if rule.output(names[0]).None? {
        assert Sources(p.jobs) == [] == Filter(rule, names[..0]);
        assert StopsAt(rule, names, p, 0);
      } else {
        assert Filter(rule, names[..k + 1]) == [names[0]] + Filter(rule, names[1..][..k]);
        assert Sources(p.jobs) == [names[0]] + Sources(rest.jobs);
        assert StopsAt(rule, names, p, k + 1);
      }
    }
  }

  /** Every job is a selected name and writes and opens what the rule says for it. */
  lemma {:induction false} PlanJobs(rule: Rule, names: seq<string>)
    ensures forall j :: 0 <= j < |PlanSpec(rule, names).jobs| ==> JobFollows(rule, PlanSpec(rule, names).jobs[j])
  {
    if |names| > 0 {
      PlanJobs(rule, names[1..]);
      var p := PlanSpec(rule, names);
      var rest := PlanSpec(rule, names[1..]);
      if rule.selected(names[0]) && rule.output(names[0]).Some? {
        forall j | 0 <= j < |p.jobs| ensures JobFollows(rule, p.jobs[j]) {
          if j > 0 {
            assert p.jobs[j] == rest.jobs[j - 1];
          }
        }
      }
    }
  }

  /** A job is a selected name and writes and opens what the rule says for it. */
  predicate JobFollows(rule: Rule, job: Job)
  {
    rule.selected(job.source) && rule.output(job.source) == Some(job.output) && job.companion == rule.companion(job.source)
  }

  /** The name the run fails at is selected and has no output name. */
  lemma {:induction false} PlanFailure(rule: Rule, names: seq<string>)
    ensures var p := PlanSpec(rule, names);
      p.failed.Some? ==> rule.selected(p.failed.value) && rule.output(p.failed.value).None?
  {
    if |names| > 0 {
      PlanFailure(rule, names[1..]);
    }
  }

  /** For the daily scripts: a run fails only at a selected name without an eight-digit run. */
  lemma ScriptFailure(script: Script, listing: seq<string>)
    ensures var p := PlanSpec(ScriptRule(script), SortNames(listing));
      p.failed.Some? ==> Selected(script, p.failed.value) && FirstDigitRun(p.failed.value, 8, 0).None?
  {
    PlanFailure(ScriptRule(script), SortNames(listing));
  }

  /** A run that does not fail processes every selected name, in sorted order. */
  lemma PlanCompleteSorted(rule: Rule, listing: seq<string>)
    requires PlanSpec(rule, SortNames(listing)).failed.None?
    ensures Sources(PlanSpec(rule, SortNames(listing)).jobs) == Filter(rule, SortNames(listing))
    ensures SortedNames(Sources(PlanSpec(rule, SortNames(listing)).jobs))
  {
    var names := SortNames(listing);
    PlanStops(rule, names);
    assert names[..|names|] == names;
    FilterSorted(rule, names);
  }

  /** Filtering keeps the order. */
  lemma {:induction false} FilterSorted(rule: Rule, names: seq<string>)
    requires SortedNames(names)
    ensures SortedNames(Filter(rule, names))
  {
    if |names| > 0 {
      FilterSorted(rule, names[1..]);
      var rest := Filter(rule, names[1..]);
      forall x | x in rest ensures LexLe(names[0], x) {
        var j :| 0 <= j < |names[1..]| && names[1..][j] == x;
        assert names[j + 1] == x;
      }
    }
  }
}
