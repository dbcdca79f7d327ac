/** The prompt queue and the pipeline's task loop (automation/activities/tasks.go,
    automation/workflow/pipeline.go). Files are paths relative to prompts/, all ending in
    ".md"; a task is complete when its marker exists. */
module TaskQueue {
  import opened Prelude
  import opened NaturalOrder

  function Dashed(s: string): string {
    seq(|s|, i requires 0 <= i < |s| => if s[i] == '/' then '-' else s[i])
  }

  /** "phase-1/07-basic.md" becomes "phase-1-07-basic". */
  function TaskID(path: string): string {
    Dashed(if |path| >= 3 then path[..|path| - 3] else path)
  }

  /** The ID of a prompt is its path with the ending cut off and every separator replaced. */
  lemma TaskIDExact(stem: string)
    ensures |TaskID(stem + ".md")| == |stem|
    ensures forall i :: 0 <= i < |stem| ==> TaskID(stem + ".md")[i] == (if stem[i] == '/' then '-' else stem[i])
    ensures '/' !in TaskID(stem + ".md")
  {
    assert (stem + ".md")[..|stem|] == stem;
  }

  /** So two prompts share an ID exactly when they differ in nothing but separators and dashes. */
  lemma SameIDIff(stem: string, other: string)
    ensures TaskID(stem + ".md") == TaskID(other + ".md") <==>
      |stem| == |other| && forall i :: 0 <= i < |stem| ==> stem[i] == other[i] || {stem[i], other[i]} == {'/', '-'}
  {
    TaskIDExact(stem);
    TaskIDExact(other);
    if TaskID(stem + ".md") == TaskID(other + ".md") {
      forall i | 0 <= i < |stem| ensures stem[i] == other[i] || {stem[i], other[i]} == {'/', '-'} {
        assert TaskID(stem + ".md")[i] == TaskID(other + ".md")[i];
      }
    }
    if |stem| == |other| && forall i :: 0 <= i < |stem| ==> stem[i] == other[i] || {stem[i], other[i]} == {'/', '-'} {
      forall i | 0 <= i < |stem| ensures TaskID(stem + ".md")[i] == TaskID(other + ".md")[i] {
        assert stem[i] in {stem[i], other[i]} && other[i] in {stem[i], other[i]};
      }
    }
  }

  ghost predicate NaturallySorted(s: seq<string>) {
    forall i, j :: 0 <= i < j < |s| ==> !NaturallyBefore(s[j], s[i])
  }

  /** sort.Slice with naturalLess, as an insertion sort. */
  method SortNaturally(files: seq<string>) returns (sorted: seq<string>)
    ensures NaturallySorted(sorted) && multiset(sorted) == multiset(files)
  {
    sorted := [];
    for n := 0 to |files|
      invariant NaturallySorted(sorted) && multiset(sorted) == multiset(files[..n])
    {
      assert files[..n + 1] == files[..n] + [files[n]];
      sorted := InsertNaturally(sorted, files[n]);
    }
    assert files[..|files|] == files;
  }

  method InsertNaturally(sorted: seq<string>, x: string) returns (r: seq<string>)
    requires NaturallySorted(sorted)
    ensures NaturallySorted(r) && multiset(r) == multiset(sorted) + multiset{x}
  {
    var i := 0;
    var later := true;
    while i < |sorted| && later
      invariant 0 <= i <= |sorted|
      invariant forall k :: 0 <= k < i ==> !NaturallyBefore(x, sorted[k])
      invariant !later ==> i < |sorted| && NaturallyBefore(x, sorted[i])
      decreases |sorted| - i, later
    {
      var before := NaturalLess(x, sorted[i]);
      if before {
        later := false;
      } else {
        i := i + 1;
      }
    }
    forall k | i <= k < |sorted| ensures !NaturallyBefore(sorted[k], x) {
      NaturalIsStrictWeak(sorted[k], x, sorted[i]);
      NaturalIsStrictWeak(x, sorted[i], x);
    }
    r := sorted[..i] + [x] + sorted[i..];
    SpliceKeepsSorted(sorted, x, i);
  }

  lemma SpliceKeepsSorted(sorted: seq<string>, x: string, i: nat)
    requires NaturallySorted(sorted) && i <= |sorted|
    requires forall k :: 0 <= k < i ==> !NaturallyBefore(x, sorted[k])
    requires forall k :: i <= k < |sorted| ==> !NaturallyBefore(sorted[k], x)
    ensures NaturallySorted(sorted[..i] + [x] + sorted[i..])
    ensures multiset(sorted[..i] + [x] + sorted[i..]) == multiset(sorted) + multiset{x}
  {
    assert sorted == sorted[..i] + sorted[i..];
  }

  /** The first task in natural order that is not complete. */
  ghost predicate IsNext(files: seq<string>, done: set<string>, next: string) {
    && next in files && TaskID(next) !in done
    && forall f :: f in files && TaskID(f) !in done ==> !NaturallyBefore(f, next)
  }

  ghost predicate AllDone(files: seq<string>, done: set<string>) {
    forall f :: f in files ==> TaskID(f) in done
  }

  /** No completed task has a strictly smaller uncompleted one. */
  ghost predicate InOrder(files: seq<string>, done: set<string>) {
    forall f, g :: f in files && g in files && NaturallyBefore(f, g) && TaskID(g) in done ==> TaskID(f) in done
  }

  ghost predicate DistinctIDs(files: seq<string>) {
    forall f, g :: f in files && g in files && TaskID(f) == TaskID(g) ==> f == g
  }

  lemma CompletingNextKeepsOrder(files: seq<string>, done: set<string>, next: string)
    requires DistinctIDs(files) && InOrder(files, done) && IsNext(files, done, next)
    ensures InOrder(files, done + {TaskID(next)})
  {
  }

  class PromptQueue {
    const files: seq<string>
    var markers: set<string>

    constructor (files: seq<string>)
      ensures this.files == files && markers == {}
    {
      this.files := files;
      markers := {};
    }

    method GetNextTask() returns (next: Option<string>)
      ensures next.None? <==> AllDone(files, markers)
      ensures next.Some? ==> IsNext(files, markers, next.value)
    {
      var sorted := SortNaturally(files);
      assert forall f :: f in files <==> f in multiset(files);
      assert forall f :: f in sorted <==> f in multiset(sorted);
      for i := 0 to |sorted|
        invariant forall k :: 0 <= k < i ==> TaskID(sorted[k]) in markers
      {
        if TaskID(sorted[i]) !in markers {
          assert sorted[i] in sorted;
          forall f | f in files && TaskID(f) !in markers ensures !NaturallyBefore(f, sorted[i]) {
            assert f in sorted;
            var k :| 0 <= k < |sorted| && sorted[k] == f;
            NaturalIsStrictWeak(f, f, f);
            assert k == i || !NaturallyBefore(sorted[k], sorted[i]);
          }
          return Some(sorted[i]);
        }
      }
      next := None;
    }

    method MarkComplete(path: string)
      modifies this
      ensures markers == old(markers) + {TaskID(path)}
    {
      markers := markers + {TaskID(path)};
    }

    /** The outer loop of PipelineWorkflow: any activity for a prompt may fail and end it, marking
        it complete even after the marker is written. It never completes a prompt ahead of a
        strictly smaller one, and ends without an error only when the queue is empty. */
    method PipelineWorkflow() returns (failed: bool)
      modifies this
      ensures old(markers) <= markers
      ensures DistinctIDs(files) && InOrder(files, old(markers)) ==> InOrder(files, markers)
      ensures !failed ==> AllDone(files, markers)
    {
      while true
        invariant old(markers) <= markers
        invariant DistinctIDs(files) && InOrder(files, old(markers)) ==> InOrder(files, markers)
        decreases (set f | f in files && TaskID(f) !in markers)
      {
        var next := GetNextTask();
        if next.None? {
          return false;
        }
        if * {
          return true;
        }
        ghost var before := set f | f in files && TaskID(f) !in markers;
        if DistinctIDs(files) && InOrder(files, markers) {
          CompletingNextKeepsOrder(files, markers, next.value);
        }
        MarkComplete(next.value);
        assert next.value in before;
        assert next.value !in (set f | f in files && TaskID(f) !in markers);
        if * {
          return true;
        }
      }
    }
  }

  // ----- Whole runs -----

  /** The tasks one or more pipeline runs complete, starting from no markers. */
  ghost predicate IsHistory(files: seq<string>, tasks: seq<string>) {
    forall n :: 0 <= n < |tasks| ==> IsNext(files, Markers(tasks[..n]), tasks[n])
  }

  function Markers(tasks: seq<string>): set<string> {
    if tasks == [] then {} else Markers(tasks[..|tasks| - 1]) + {TaskID(tasks[|tasks| - 1])}
  }

  lemma {:induction false} MarkersOf(tasks: seq<string>, i: nat)
    requires i < |tasks|
    ensures TaskID(tasks[i]) in Markers(tasks)
    decreases |tasks|
  {
    if i < |tasks| - 1 {
      MarkersOf(tasks[..|tasks| - 1], i);
    }
  }

  lemma HistoryPrefix(files: seq<string>, tasks: seq<string>, n: nat)
    requires IsHistory(files, tasks) && n <= |tasks|
    ensures IsHistory(files, tasks[..n])
  {
    forall k | 0 <= k < n ensures IsNext(files, Markers(tasks[..n][..k]), tasks[..n][k]) {
      assert tasks[..n][..k] == tasks[..k];
    }
  }

  /** Over every run on a fixed tree with distinct IDs, no completed task has a strictly
      smaller uncompleted one. */
  lemma {:induction false} RunsInOrder(files: seq<string>, tasks: seq<string>)
    requires DistinctIDs(files) && IsHistory(files, tasks)
    ensures InOrder(files, Markers(tasks))
    decreases |tasks|
  {
    if tasks != [] {
      var n := |tasks| - 1;
      HistoryPrefix(files, tasks, n);
      RunsInOrder(files, tasks[..n]);
      assert IsNext(files, Markers(tasks[..n]), tasks[n]);
      CompletingNextKeepsOrder(files, Markers(tasks[..n]), tasks[n]);
    }
  }

  /** Tasks complete in natural order, and none completes twice. */
  lemma CompletionsSorted(files: seq<string>, tasks: seq<string>, i: nat, j: nat)
    requires DistinctIDs(files) && IsHistory(files, tasks) && i < j < |tasks|
    ensures !NaturallyBefore(tasks[j], tasks[i]) && TaskID(tasks[i]) != TaskID(tasks[j])
  {
    assert IsNext(files, Markers(tasks[..i]), tasks[i]);
    assert IsNext(files, Markers(tasks[..j]), tasks[j]);
    assert tasks[..j][i] == tasks[i];
    MarkersOf(tasks[..j], i);
    assert tasks[..j][..i] == tasks[..i];
    MarkersGrow(tasks[..j], i);
  }

  lemma {:induction false} MarkersGrow(tasks: seq<string>, i: nat)
    requires i <= |tasks|
    ensures Markers(tasks[..i]) <= Markers(tasks)
    decreases |tasks|
  {
    if i < |tasks| {
      MarkersGrow(tasks[..|tasks| - 1], i);
      assert tasks[..|tasks| - 1][..i] == tasks[..i];
    } else {
      assert tasks[..i] == tasks;
    }
  }

  lemma SecondCharacterDecides(a: string, b: string)
    requires |a| > 1 && |b| > 1 && a[0] == b[0] && !IsDigit(a[0]) && !IsDigit(a[1]) && a[1] < b[1]
    ensures NaturallyBefore(a, b) && !NaturallyBefore(b, a)
  {
    CompareStep(a, 0, b, 0);
    CompareStep(a, 1, b, 1);
    NaturalIsStrictWeak(a, b, a);
  }

  /** Two paths that share an ID break the order: completing "x-1.md" also completes
      "x/1.md", past the unfinished "x.md". */
  lemma SharedIDsSkip()
    ensures var files := ["x-1.md", "x.md", "x/1.md"];
      && IsNext(files, {}, "x-1.md")
      && !InOrder(files, {TaskID("x-1.md")})
  {
    var a, b, c := "x-1.md", "x.md", "x/1.md";
    SecondCharacterDecides(a, b);
    SecondCharacterDecides(a, c);
    SecondCharacterDecides(b, c);
    NaturalIsStrictWeak(a, a, a);
    assert TaskID(a) == "x-1";
    assert TaskID(c) == "x-1";
    assert TaskID(b) == "x";
    assert b in [a, b, c] && c in [a, b, c];
    assert !InOrder([a, b, c], {TaskID(a)});
  }
}
