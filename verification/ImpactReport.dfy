/**
 Impact over two revisions and the aggregation of a CI run: every obligation either revision has is
 kept, and a run passes only on exactly one matching successful job for each required name.
 */
module ImpactReport {
  import opened Prelude
  import opened Graphs
  import opened Text
  import opened ImpactWalk

  /** A compiled graph: node kinds by id, edges, input digests by path, and what it could not place. */
  datatype Graph = Graph(kinds: map<string, string>, edges: seq<Edge>, inputs: map<string, string>,
                         unknownFiles: set<string>, gaps: bool)

  /** What the compiler guarantees: every edge joins two declared nodes. */
  ghost predicate Compiled(g: Graph) {
    forall e :: e in g.edges ==> e.source in g.kinds && e.target in g.kinds
  }

  predicate Differs(base: Graph, head: Graph, p: string) {
    !(p !in base.inputs && p !in head.inputs)
      && !(p in base.inputs && p in head.inputs && base.inputs[p] == head.inputs[p])
  }

  ghost function Changed(base: Graph, head: Graph): set<string> {
    set p | p in base.inputs.Keys + head.inputs.Keys && Differs(base, head, p)
  }

  /** A changed file that the graph knows reaches the node along permitted directions. */
  ghost predicate Touched(g: Graph, changed: set<string>, id: string) {
    exists p :: p in changed && "file:" + p in g.kinds && Reaches(StepGraph(g.edges, true), "file:" + p, id)
  }

  ghost predicate TouchedCheck(g: Graph, changed: set<string>, id: string) {
    id in g.kinds && g.kinds[id] == "check" && Touched(g, changed, id)
  }

  ghost predicate TouchedEntity(g: Graph, changed: set<string>, id: string) {
    id in g.kinds && g.kinds[id] != "file" && g.kinds[id] != "external" && Touched(g, changed, id)
  }

  datatype Report = Report(changed: seq<string>, affected: set<string>, checks: set<string>, unknown: set<string>)

  /** What `impact` reports about the two revisions. */
  ghost predicate IsImpact(base: Graph, head: Graph, r: Report) {
    var changed := Changed(base, head);
    && r.changed == Sorted(changed)
    && (forall id :: id in r.checks <==> TouchedCheck(base, changed, id) || TouchedCheck(head, changed, id))
    && (forall id :: id in r.affected <==> TouchedEntity(base, changed, id) || TouchedEntity(head, changed, id))
    && r.unknown == changed * (base.unknownFiles + head.unknownFiles)
  }

  method Seeds(g: Graph, changed: seq<string>) returns (seeds: seq<string>)
    ensures forall s :: s in seeds <==> exists p :: p in changed && s == "file:" + p && s in g.kinds
  {
    seeds := [];
    for i := 0 to |changed|
      invariant forall s :: s in seeds <==> exists p :: p in changed[..i] && s == "file:" + p && s in g.kinds
    {
      assert changed[..i + 1] == changed[..i] + [changed[i]];
      if "file:" + changed[i] in g.kinds { seeds := seeds + ["file:" + changed[i]]; }
    }
    TakeAll(changed);
  }

  /** The walk over one revision finds exactly the touched nodes. */
  method TouchedNodes(g: Graph, changed: seq<string>) returns (paths: Paths)
    requires Compiled(g)
    ensures forall id :: id in paths <==> Touched(g, Elements(changed), id)
    ensures forall id :: id in paths ==> id in g.kinds
  {
    var seeds := Seeds(g, changed);
    paths := Walks(g.edges, seeds, true, 8);
    forall id ensures id in paths <==> Touched(g, Elements(changed), id) {
      ImpactIsReachability(g.edges, seeds, 8, paths, id);
      if s :| s in seeds && Reaches(StepGraph(g.edges, true), s, id) {
        var p :| p in changed && s == "file:" + p && s in g.kinds;
        assert Touched(g, Elements(changed), id);
      }
      if Touched(g, Elements(changed), id) {
        var p :| p in Elements(changed) && "file:" + p in g.kinds && Reaches(StepGraph(g.edges, true), "file:" + p, id);
        assert "file:" + p in seeds;
      }
    }
    forall id | id in paths ensures id in g.kinds {
      var p :| p in Elements(changed) && "file:" + p in g.kinds && Reaches(StepGraph(g.edges, true), "file:" + p, id);
    }
  }

  method Collect(g: Graph, changed: seq<string>, affected0: set<string>, checks0: set<string>)
    returns (affected: set<string>, checks: set<string>)
    requires Compiled(g)
    ensures forall id :: id in checks <==> id in checks0 || TouchedCheck(g, Elements(changed), id)
    ensures forall id :: id in affected <==> id in affected0 || TouchedEntity(g, Elements(changed), id)
  {
    var paths := TouchedNodes(g, changed);
    affected, checks := affected0, checks0;
    var left := paths.Keys;
    while left != {}
      invariant left <= paths.Keys
      invariant forall id :: id in checks <==> id in checks0 || (id in paths && id !in left && g.kinds[id] == "check")
      invariant forall id :: id in affected <==>
                  id in affected0 || (id in paths && id !in left && g.kinds[id] != "file" && g.kinds[id] != "external")
      decreases left
    {
      var id :| id in left;
      var kind := g.kinds[id];
      if kind != "file" && kind != "external" { affected := affected + {id}; }
      if kind == "check" { checks := checks + {id}; }
      left := left - {id};
    }
  }

  method Impact(base: Graph, head: Graph) returns (r: Report)
    requires Compiled(base) && Compiled(head)
    ensures IsImpact(base, head, r)
  {
    var all := base.inputs.Keys + head.inputs.Keys;
    var changedSet := set p | p in all && Differs(base, head, p);
    var changed := SortKeys(changedSet);
    assert Elements(changed) == changedSet;
    var affected, checks := Collect(base, changed, {}, {});
    affected, checks := Collect(head, changed, affected, checks);
    r := Report(changed, affected, checks, changedSet * base.unknownFiles + changedSet * head.unknownFiles);
  }

  /** Exchanging the revisions changes neither the changed files, nor what is affected, nor the checks. */
  lemma ImpactIsSymmetric(base: Graph, head: Graph, r: Report, q: Report)
    requires IsImpact(base, head, r) && IsImpact(head, base, q)
    ensures r == q
  {
    assert Changed(base, head) == Changed(head, base);
    assert r.checks == q.checks;
    assert r.affected == q.affected;
  }

  ghost predicate AgreeApart(base: Graph, head: Graph, paths: set<string>) {
    base.inputs - paths == head.inputs - paths
  }

  /**
   The changed files are the least set of files apart from which the two revisions have the same inputs,
   so an added, a deleted and a modified file are each in it and an unchanged one is not.
   */
  lemma ChangedIsLeast(base: Graph, head: Graph, paths: set<string>)
    ensures AgreeApart(base, head, Changed(base, head))
    ensures AgreeApart(base, head, paths) ==> Changed(base, head) <= paths
    ensures Changed(base, head) == {} <==> base.inputs == head.inputs
  {
    var changed := Changed(base, head);
    var a, b := base.inputs - changed, head.inputs - changed;
    forall p | p in a || p in b ensures p in a && p in b && a[p] == b[p] {
      assert !Differs(base, head, p);
    }
    assert a.Keys == b.Keys;
    if AgreeApart(base, head, paths) {
      forall p | p in changed ensures p in paths {
        var c, d := base.inputs - paths, head.inputs - paths;
        assert (p in c <==> p in base.inputs && p !in paths) && (p in d <==> p in head.inputs && p !in paths);
      }
    }
    assert base.inputs - {} == base.inputs && head.inputs - {} == head.inputs;
  }

  /** Two revisions with the same inputs report nothing at all. */
  lemma EqualInputsReportNothing(base: Graph, head: Graph, r: Report)
    requires IsImpact(base, head, r) && base.inputs == head.inputs
    ensures r == Report([], {}, {}, {})
  {
    ChangedIsLeast(base, head, {});
    assert Changed(base, head) == {};
    assert r.checks == {} && r.affected == {};
  }

  /**
   Of what a changed file reaches in either revision, the checks there are reported as checks and all but
   files and externals as affected; every check is among the affected, and nothing else is reported.
   */
  lemma ReportTellsKinds(base: Graph, head: Graph, r: Report, g: Graph, id: string)
    requires IsImpact(base, head, r) && g in {base, head}
    ensures id in g.kinds && Touched(g, Changed(base, head), id) ==>
              && (g.kinds[id] == "check" ==> id in r.checks)
              && (g.kinds[id] !in {"file", "external"} ==> id in r.affected)
    ensures id in r.checks ==> exists k :: k in {base, head} && id in k.kinds && k.kinds[id] == "check"
    ensures id in r.affected ==> exists k :: k in {base, head} && id in k.kinds && k.kinds[id] !in {"file", "external"}
    ensures r.checks <= r.affected
  {
  }

  /** The more files changed, the more is touched. */
  lemma TouchedGrows(g: Graph, some: set<string>, more: set<string>, id: string)
    requires some <= more && Touched(g, some, id)
    ensures Touched(g, more, id)
  {
    var p :| p in some && "file:" + p in g.kinds && Reaches(StepGraph(g.edges, true), "file:" + p, id);
    assert p in more;
  }

  /** The changed files by which the base revision reaches the node. */
  ghost predicate ReachedBy(base: Graph, p: string, id: string) {
    "file:" + p in base.kinds && Reaches(StepGraph(base.edges, true), "file:" + p, id)
  }

  /**
   Two proposals `head` and `head'` against one base. A check of the base that a file changed by `head`
   reaches there is missing from the report on `head'` only if `head'` restores every such file to its
   content in the base. In particular it stays when `head'` merely changes more, declarations included.
   */
  lemma BaseChecksOutlastTheHead(base: Graph, head: Graph, head': Graph, r': Report, id: string)
    requires IsImpact(base, head', r') && TouchedCheck(base, Changed(base, head), id)
    ensures id in r'.checks || forall p :: p in Changed(base, head) && ReachedBy(base, p, id) ==>
              p !in Changed(base, head')
    ensures Changed(base, head) <= Changed(base, head') ==> id in r'.checks
  {
    var changed, changed' := Changed(base, head), Changed(base, head');
    if p :| p in changed && ReachedBy(base, p, id) && p in changed' {
      assert Touched(base, changed', id);
      assert TouchedCheck(base, changed', id);
    }
    if changed <= changed' { TouchedGrows(base, changed, changed', id); }
  }

  // ---------------------------------------------------------------- CI aggregation

  datatype Job = Job(name: string, runId: int, attempt: int, headSha: string, status: string, conclusion: string,
                     id: int)

  datatype Run = Run(id: int, headSha: string, attempt: int, event: string)

  /** The job belongs to the requested run, attempt and revision and has the required name. */
  predicate Matches(j: Job, name: string, runId: int, attempt: int, headSha: string) {
    j.name == name && j.runId == runId && j.attempt == attempt && j.headSha == headSha
  }

  predicate Succeeded(j: Job) {
    j.status == "completed" && j.conclusion == "success"
  }

  /** Exactly one job matches the name, and it succeeded. */
  ghost predicate Proven(jobs: seq<Job>, name: string, runId: int, attempt: int, headSha: string) {
    exists i :: 0 <= i < |jobs| && Matches(jobs[i], name, runId, attempt, headSha) && Succeeded(jobs[i])
                && forall k :: 0 <= k < |jobs| && Matches(jobs[k], name, runId, attempt, headSha) ==> k == i
  }

  /** A job of the requested name, run, attempt and revision, as against any other job of the run. */
  predicate IsRequested(j: Job, name: string, runId: int, attempt: int, headSha: string) {
    j.name == name && (j.runId, j.attempt, j.headSha) == (runId, attempt, headSha)
  }

  /**
   One more job proves a name exactly when it is the first one requested and succeeded; a second one
   requested disproves it, and any other job, of an earlier attempt say, changes nothing.
   */
  lemma OneMoreJob(jobs: seq<Job>, j: Job, name: string, runId: int, attempt: int, headSha: string)
    ensures Proven(jobs + [j], name, runId, attempt, headSha) <==>
            if IsRequested(j, name, runId, attempt, headSha)
            then j.status == "completed" && j.conclusion == "success"
              && forall k :: 0 <= k < |jobs| ==> !IsRequested(jobs[k], name, runId, attempt, headSha)
            else Proven(jobs, name, runId, attempt, headSha)
    ensures !Proven([], name, runId, attempt, headSha)
  {
    var more := jobs + [j];
    forall x ensures IsRequested(x, name, runId, attempt, headSha) <==> Matches(x, name, runId, attempt, headSha) {
    }
    if Proven(jobs, name, runId, attempt, headSha) && !Matches(j, name, runId, attempt, headSha) {
      var i :| 0 <= i < |jobs| && Matches(jobs[i], name, runId, attempt, headSha) && Succeeded(jobs[i])
        && forall k :: 0 <= k < |jobs| && Matches(jobs[k], name, runId, attempt, headSha) ==> k == i;
      assert more[i] == jobs[i];
    }
    if Proven(more, name, runId, attempt, headSha) {
      var i :| 0 <= i < |more| && Matches(more[i], name, runId, attempt, headSha) && Succeeded(more[i])
        && forall k :: 0 <= k < |more| && Matches(more[k], name, runId, attempt, headSha) ==> k == i;
      forall k | 0 <= k < |jobs| ensures jobs[k] == more[k] { }
      assert more[|jobs|] == j;
    }
    if Matches(j, name, runId, attempt, headSha) && Succeeded(j)
       && forall k :: 0 <= k < |jobs| ==> !Matches(jobs[k], name, runId, attempt, headSha) {
      assert more[|jobs|] == j;
    }
  }

  datatype CheckResult = CheckResult(name: string, passed: bool, jobId: Option<int>)

  datatype Verdict = Verdict(passed: bool, checks: seq<CheckResult>)

  /** One result for each required name, in order, passed exactly when that name is proven. */
  ghost predicate Reported(jobs: seq<Job>, names: seq<string>, checks: seq<CheckResult>, runId: int, attempt: int,
                           headSha: string) {
    && |checks| == |names|
    && (forall i :: 0 <= i < |names| ==>
          (checks[i].name == names[i] && (checks[i].passed <==> Proven(jobs, names[i], runId, attempt, headSha))))
  }

  /** The run is the requested one, and the tested checkout binds it to base and head. */
  predicate IdentityHolds(run: Run, runId: int, attempt: int, expectedHead: string, tested: string,
                          headRevision: string,
                          baseRevision: string, parents: seq<string>) {
    && run.id == runId && run.headSha == expectedHead && run.attempt == attempt
    && headRevision == tested
    && (if run.event == "pull_request" then parents == [baseRevision, expectedHead] else tested == expectedHead)
  }

  /**
   What is accepted binds the run to one request: two requests accepted for the same run, checkout and
   parents name the same run, attempt and head, and for a pull request also the same base.
   */
  lemma IdentityBinds(run: Run, tested: string, parents: seq<string>, runId: int, attempt: int, expectedHead: string,
                      headRevision: string, baseRevision: string, runId': int, attempt': int, expectedHead': string,
                      headRevision': string, baseRevision': string)
    requires IdentityHolds(run, runId, attempt, expectedHead, tested, headRevision, baseRevision, parents)
    requires IdentityHolds(run, runId', attempt', expectedHead', tested, headRevision', baseRevision', parents)
    ensures runId == runId' && attempt == attempt' && expectedHead == expectedHead' && headRevision == headRevision'
    ensures run.event == "pull_request" ==> baseRevision == baseRevision' && parents[1] == run.headSha
    ensures run.event != "pull_request" ==> tested == run.headSha
  {
    assert [baseRevision, expectedHead][0] == baseRevision;
  }

  method FindJob(jobs: seq<Job>, name: string, runId: int, attempt: int, headSha: string) returns (job: Option<Job>)
    ensures (job.Some? && Succeeded(job.value)) <==> Proven(jobs, name, runId, attempt, headSha)
    ensures job.Some? ==> job.value in jobs && Matches(job.value, name, runId, attempt, headSha)
  {
    var count, last := 0, 0;
    for i := 0 to |jobs|
      invariant 0 <= count <= i
      invariant count == 0 ==> forall k :: 0 <= k < i ==> !Matches(jobs[k], name, runId, attempt, headSha)
      invariant count == 1 ==> 0 <= last < i && Matches(jobs[last], name, runId, attempt, headSha)
                               && forall k :: 0 <= k < i && Matches(jobs[k], name, runId, attempt, headSha) ==>
                                    k == last
      invariant count >= 2 ==> exists k, l :: 0 <= k < l < i && Matches(jobs[k], name, runId, attempt, headSha)
                                             && Matches(jobs[l], name, runId, attempt, headSha)
    {
      if Matches(jobs[i], name, runId, attempt, headSha) {
        count, last := count + 1, i;
      }
    }
    job := if count == 1 then Some(jobs[last]) else None;
  }

  function AllJobs(pages: seq<seq<Job>>): seq<Job> {
    if pages == [] then [] else AllJobs(pages[..|pages| - 1]) + pages[|pages| - 1]
  }

  method CheckNames(jobs: seq<Job>, names: seq<string>, runId: int, attempt: int, headSha: string)
    returns (checks: seq<CheckResult>, passed: bool)
    ensures Reported(jobs, names, checks, runId, attempt, headSha)
    ensures passed <==> forall i :: 0 <= i < |names| ==> Proven(jobs, names[i], runId, attempt, headSha)
  {
    checks, passed := [], true;
    for i := 0 to |names|
      invariant Reported(jobs, names[..i], checks, runId, attempt, headSha)
      invariant passed <==> forall k :: 0 <= k < i ==> Proven(jobs, names[k], runId, attempt, headSha)
    {
      TakeOneMore(names, i);
      var job := FindJob(jobs, names[i], runId, attempt, headSha);
      var ok := job.Some? && Succeeded(job.value);
      checks := checks + [CheckResult(names[i], ok, if job.Some? then Some(job.value.id) else None)];
      passed := passed && ok;
    }
    TakeAll(names);
  }

  /** Refused unless the identities agree; passed exactly when every name either revision requires is proven. */
  method Aggregate(requiredBase: set<string>, requiredHead: set<string>, run: Run, pages: seq<seq<Job>>, runId: int,
                   attempt: int, expectedHead: string, tested: string, headRevision: string, baseRevision: string,
                   parents: seq<string>)
    returns (r: Result<Verdict, string>)
    ensures r.Ok? <==> IdentityHolds(run, runId, attempt, expectedHead, tested, headRevision, baseRevision, parents)
    ensures r.Ok? ==>
              (r.value.passed <==>
               forall name :: name in requiredBase + requiredHead ==>
                        Proven(AllJobs(pages), name, runId, attempt, expectedHead))
    ensures r.Ok? ==> Reported(AllJobs(pages), Sorted(requiredBase + requiredHead), r.value.checks, runId, attempt,
                               expectedHead)
  {
    hide Proven, Reported, AllJobs;
    if !IdentityHolds(run, runId, attempt, expectedHead, tested, headRevision, baseRevision, parents) {
      return Err("run does not bind the expected revisions");
    }
    var required := SortKeys(requiredBase + requiredHead);
    assert forall name :: name in requiredBase + requiredHead <==> name in Elements(required);
    var checks, passed := CheckNames(AllJobs(pages), required, runId, attempt, expectedHead);
    r := Ok(Verdict(passed, checks));
  }
}
