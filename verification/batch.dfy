/** The batch a script runs, `main` in run_eval.py and run_eval_series2.py:
    for every word, for every model, one job; the flag of each job is
    recorded in a nested results dict keyed by word name and model name.
    The environment's answers for the n-th job (counting from 0 in loop
    order) are `envs(n)`. */
module Batch {
  import opened Seqs
  import opened Naming
  import opened Job

  /** One evaluation script: its output base directory, size policy, words,
      models and summary wording. */
  datatype Script = Script(base: string, policy: Policy, words: seq<Word>, models: seq<Model>, style: SummaryStyle)

  /** `results`: word name to (model name to success flag), insertion-ordered. */
  type Summary = seq<(string, seq<(string, bool)>)>

  /** The state the loops thread: the results dict, the files, the requests
      sent so far, and whether a job raised (which ends the program before
      the summary is printed). */
  datatype State = State(results: Summary, fs: set<string>, requests: seq<Params>, crashed: bool)

  function RunJob(script: Script, w: Word, m: Model, fs: set<string>, env: Env): JobResult
  {
    GenerateImage(script.base, script.policy, m, w, fs, env)
  }

  /** Records one job's result: `results[word_name][model_name] = success`,
      or the end of the program when the job raised. The returned flag is
      stored under the word and the model, every other word keeps its
      entry, and the request sent, if any, is appended to those before. */
  function Record(st: State, w: Word, m: Model, r: JobResult): (st': State)
    requires HasKey(st.results, w.name)
    ensures HasKey(st'.results, w.name)
    ensures st'.crashed <==> r.outcome.Crashed?
    ensures st'.fs == r.fs
    ensures r.outcome.Returned? ==>
      HasKey(Get(st'.results, w.name), m.name) && Get(Get(st'.results, w.name), m.name) == r.outcome.success
    ensures OthersKept(st.results, st'.results, w.name)
    ensures r.request.None? ==> st'.requests == st.requests
    ensures r.request.Some? ==> st'.requests == st.requests + [r.request.value]
  {
    var requests := st.requests + (if r.request.Some? then [r.request.value] else []);
    match r.outcome
    case Crashed => State(st.results, r.fs, requests, true)
    case Returned(ok) =>
      var row := Put(Get(st.results, w.name), m.name, ok);
      GetPut(Get(st.results, w.name), m.name, ok);
      GetPut(st.results, w.name, row);
      PutKeepsOthers(st.results, w.name, row);
      State(Put(st.results, w.name, row), r.fs, requests, false)
  }

  /** Every word other than `k` that `before` has is in `after` with the
      same entry. */
  ghost predicate OthersKept(before: Summary, after: Summary, k: string)
  {
    forall k' :: k' != k && HasKey(before, k') ==> HasKey(after, k') && Get(after, k') == Get(before, k')
  }

  /** Every word other than the one assigned keeps its entry. */
  lemma {:induction false} PutKeepsOthers(d: Summary, k: string, v: seq<(string, bool)>)
    ensures OthersKept(d, Put(d, k, v), k)
  {
    forall k' | k' != k && HasKey(d, k')
      ensures HasKey(Put(d, k, v), k') && Get(Put(d, k, v), k') == Get(d, k')
    {
      GetPutOther(d, k, v, k');
    }
  }

  /** The inner loop from model index j on, for word w, whose first job is
      the n-th of the batch. */
  function RunModels(script: Script, w: Word, j: nat, n: nat, envs: nat -> Env, st: State): State
    requires HasKey(st.results, w.name)
    decreases |script.models| - j
  {
    if st.crashed || j >= |script.models| then st
    else
      var m := script.models[j];
      RunModels(script, w, j + 1, n + 1, envs, Record(st, w, m, RunJob(script, w, m, st.fs, envs(n))))
  }

  /** The outer loop from word index i on: `results[word_name] = {}`, then
      the inner loop. */
  function RunWords(script: Script, i: nat, envs: nat -> Env, st: State): State
    decreases |script.words| - i
  {
    if st.crashed || i >= |script.words| then st
    else
      var w := script.words[i];
      var st' := RunModels(script, w, 0, i * |script.models|, envs, st.(results := Put(st.results, w.name, [])));
      RunWords(script, i + 1, envs, st')
  }

  /** One step of the inner loop. */
  lemma {:induction false} ModelsStep(script: Script, w: Word, j: nat, n: nat, envs: nat -> Env, st: State)
    requires HasKey(st.results, w.name) && !st.crashed && j < |script.models|
    ensures var m := script.models[j];
      RunModels(script, w, j, n, envs, st) ==
      RunModels(script, w, j + 1, n + 1, envs, Record(st, w, m, RunJob(script, w, m, st.fs, envs(n))))
  {
  }

  /** The inner loop after its last model. */
  lemma {:induction false} ModelsStop(script: Script, w: Word, j: nat, n: nat, envs: nat -> Env, st: State)
    requires HasKey(st.results, w.name) && j >= |script.models|
    ensures RunModels(script, w, j, n, envs, st) == st
  {
  }

  /** `main()` started on the files `fs`. */
  function Run(script: Script, fs: set<string>, envs: nat -> Env): State
  {
    RunWords(script, 0, envs, State([], fs, [], false))
  }

  // Jobs are numbered in loop order: job (i, j), word i and model j, is
  // the (i * |models| + j)-th.

  lemma {:induction false} JobIndexInRange(i: int, j: int, words: int, models: int)
    requires 0 <= i < words && 0 <= j < models
    ensures 0 <= i * models + j < words * models
  {
    MulMonotone(i + 1, words, models);
    MulMonotone(0, i, models);
  }

  /** Some job numbered in [lo, hi) raises outside its handler: its
      directory creation or its test for the final file fails. */
  ghost predicate UnhandledIn(envs: nat -> Env, lo: int, hi: int)
  {
    exists k :: lo <= k < hi && k >= 0 && Unhandled(envs(k))
  }

  lemma {:induction false} UnhandledSplit(envs: nat -> Env, lo: int, mid: int, hi: int)
    requires 0 <= lo <= mid <= hi
    ensures UnhandledIn(envs, lo, hi) <==> UnhandledIn(envs, lo, mid) || UnhandledIn(envs, mid, hi)
  {
  }

  /** The program raises exactly when some job's directory creation or
      test for its final file raises. */
  lemma {:induction false} CrashIffUnhandled(script: Script, fs: set<string>, envs: nat -> Env)
    ensures Run(script, fs, envs).crashed <==> UnhandledIn(envs, 0, |script.words| * |script.models|)
  {
    WordsCrash(script, 0, envs, State([], fs, [], false));
  }

  lemma {:induction false} ModelsCrash(script: Script, w: Word, j: nat, n: nat, envs: nat -> Env, st: State)
    requires HasKey(st.results, w.name) && !st.crashed && j <= |script.models|
    ensures RunModels(script, w, j, n, envs, st).crashed <==> UnhandledIn(envs, n, n + |script.models| - j)
    decreases |script.models| - j
  {
    if j < |script.models| {
      var m := script.models[j];
      var st' := Record(st, w, m, RunJob(script, w, m, st.fs, envs(n)));
      assert st'.crashed <==> Unhandled(envs(n));
      assert RunModels(script, w, j, n, envs, st) == RunModels(script, w, j + 1, n + 1, envs, st');
      UnhandledSplit(envs, n, n + 1, n + |script.models| - j);
      assert UnhandledIn(envs, n, n + 1) <==> Unhandled(envs(n));
      if !st'.crashed {
        ModelsCrash(script, w, j + 1, n + 1, envs, st');
      }
    } else {
      assert !UnhandledIn(envs, n, n);
    }
  }

  lemma {:induction false} WordsCrash(script: Script, i: nat, envs: nat -> Env, st: State)
    requires !st.crashed && i <= |script.words|
    ensures RunWords(script, i, envs, st).crashed <==>
      UnhandledIn(envs, i * |script.models|, |script.words| * |script.models|)
    decreases |script.words| - i
  {
    var M := |script.models|;
    if i < |script.words| {
      var w := script.words[i];
      var st0 := st.(results := Put(st.results, w.name, []));
      var st' := RunModels(script, w, 0, i * M, envs, st0);
      ModelsCrash(script, w, 0, i * M, envs, st0);
      assert (i + 1) * M == i * M + M;
      MulMonotone(i + 1, |script.words|, M);
      UnhandledSplit(envs, i * M, (i + 1) * M, |script.words| * M);
      if !st'.crashed {
        WordsCrash(script, i + 1, envs, st');
      }
    } else {
      assert !UnhandledIn(envs, i * M, |script.words| * M);
    }
  }

  // The summary a batch produces.

  function FinalOf(script: Script, i: int, j: int): string
    requires 0 <= i < |script.words| && 0 <= j < |script.models|
  {
    FinalPath(script.base, script.words[i].name, script.models[j].name)
  }

  function RawOf(script: Script, i: int, j: int): string
    requires 0 <= i < |script.words| && 0 <= j < |script.models|
  {
    RawPath(script.base, script.words[i].name, script.models[j].name)
  }

  /** Word names and model names are distinct, no two jobs share a final
      artifact, and no job's raw intermediate is any job's final artifact. */
  ghost predicate Separated(script: Script)
  {
    && (forall i, i' :: 0 <= i < i' < |script.words| ==> script.words[i].name != script.words[i'].name)
    && (forall j, j' :: 0 <= j < j' < |script.models| ==> script.models[j].name != script.models[j'].name)
    && (forall i, j, i', j' ::
          0 <= i < |script.words| && 0 <= j < |script.models| &&
          0 <= i' < |script.words| && 0 <= j' < |script.models| ==>
            && (FinalOf(script, i, j) == FinalOf(script, i', j') ==> i == i' && j == j')
            && RawOf(script, i, j) != FinalOf(script, i', j'))
  }

  /** Names from which distinct paths follow: word names are distinct and
      slash-free, model safe names are distinct, and model names have no
      underscore. */
  ghost predicate NamesSeparate(script: Script)
  {
    && (forall i, i' :: 0 <= i < i' < |script.words| ==> script.words[i].name != script.words[i'].name)
    && (forall i :: 0 <= i < |script.words| ==> NoSlash(script.words[i].name))
    && (forall j, j' :: 0 <= j < j' < |script.models| ==> SafeName(script.models[j].name) != SafeName(script.models[j'].name))
    && (forall j :: 0 <= j < |script.models| ==> NoUnderscore(script.models[j].name))
  }

  lemma {:induction false} SeparatedByNames(script: Script)
    requires NamesSeparate(script)
    ensures Separated(script)
  {
    var W := script.words;
    var M := script.models;
    forall i, j, i', j' | 0 <= i < |W| && 0 <= j < |M| && 0 <= i' < |W| && 0 <= j' < |M|
      ensures FinalOf(script, i, j) == FinalOf(script, i', j') ==> i == i' && j == j'
      ensures RawOf(script, i, j) != FinalOf(script, i', j')
    {
      FinalPathInjective(script.base, W[i].name, M[j].name, W[i'].name, M[j'].name);
      RawNeverFinal(script.base, W[i].name, M[j].name, W[i'].name, M[j'].name);
      assert i < i' || i' < i ==> W[i].name != W[i'].name;
      assert j < j' || j' < j ==> SafeName(M[j].name) != SafeName(M[j'].name);
    }
  }

  /** The flag of job (i, j): its final artifact existed before the run, or
      every step of the job succeeds. */
  function Expected(script: Script, fs0: set<string>, envs: nat -> Env, i: int, j: int): bool
    requires 0 <= i < |script.words| && 0 <= j < |script.models|
  {
    FinalOf(script, i, j) in fs0 || AllStepsSucceed(envs(i * |script.models| + j))
  }

  /** The first j entries of word i's results dict. */
  function Row(script: Script, fs0: set<string>, envs: nat -> Env, i: int, j: int): seq<(string, bool)>
    requires 0 <= i < |script.words| && 0 <= j <= |script.models|
  {
    seq(j, k requires 0 <= k < j => (script.models[k].name, Expected(script, fs0, envs, i, k)))
  }

  /** The results dict after the first i words. */
  function Table(script: Script, fs0: set<string>, envs: nat -> Env, i: int): Summary
    requires 0 <= i <= |script.words|
  {
    seq(i, k requires 0 <= k < i => (script.words[k].name, Row(script, fs0, envs, k, |script.models|)))
  }

  /** The request of job (i, j) when its final artifact was missing. */
  function Sent(script: Script, fs0: set<string>, i: int, j: int): seq<Params>
    requires 0 <= i < |script.words| && 0 <= j < |script.models|
  {
    if FinalOf(script, i, j) in fs0 then []
    else [Params(script.words[i].prompt, ChooseSize(script.policy, script.models[j].id))]
  }

  /** The requests of the jobs of word i from model j on. */
  function SentFrom(script: Script, fs0: set<string>, i: int, j: int): seq<Params>
    requires 0 <= i < |script.words| && 0 <= j <= |script.models|
    decreases |script.models| - j
  {
    if j == |script.models| then [] else Sent(script, fs0, i, j) + SentFrom(script, fs0, i, j + 1)
  }

  /** The requests of the jobs from word i on. */
  function SentWords(script: Script, fs0: set<string>, i: int): seq<Params>
    requires 0 <= i <= |script.words|
    decreases |script.words| - i
  {
    if i == |script.words| then [] else SentFrom(script, fs0, i, 0) + SentWords(script, fs0, i + 1)
  }

  lemma {:induction false} SentFromStep(script: Script, fs0: set<string>, i: int, j: int, before: seq<Params>, after: seq<Params>)
    requires 0 <= i < |script.words| && 0 <= j < |script.models|
    requires after == before + Sent(script, fs0, i, j)
    ensures after + SentFrom(script, fs0, i, j + 1) == before + SentFrom(script, fs0, i, j)
  {
  }

  lemma {:induction false} SentWordsStep(script: Script, fs0: set<string>, i: int, before: seq<Params>, after: seq<Params>)
    requires 0 <= i < |script.words|
    requires after == before + SentFrom(script, fs0, i, 0)
    ensures after + SentWords(script, fs0, i + 1) == before + SentWords(script, fs0, i)
  {
  }

  /** Job (i2, j2) comes before job (i, j) in loop order. */
  predicate Before(i2: int, j2: int, i: int, j: int)
  {
    i2 < i || (i2 == i && j2 < j)
  }

  /** Before job (i, j): every earlier job whose flag is set has its final
      artifact, and every later job's final artifact is as it was. */
  ghost predicate FilesAt(script: Script, fs0: set<string>, envs: nat -> Env, fs: set<string>, i: int, j: int)
  {
    forall i2, j2 :: 0 <= i2 < |script.words| && 0 <= j2 < |script.models| ==>
      if Before(i2, j2, i, j) then (Expected(script, fs0, envs, i2, j2) ==> FinalOf(script, i2, j2) in fs)
      else (FinalOf(script, i2, j2) in fs <==> FinalOf(script, i2, j2) in fs0)
  }

  /** The results dict before job (i, j): the finished words, then word
      i with its first j models. */
  ghost predicate ResultsAt(script: Script, fs0: set<string>, envs: nat -> Env, results: Summary, i: int, j: int)
    requires 0 <= i < |script.words| && 0 <= j <= |script.models|
  {
    results == Table(script, fs0, envs, i) + [(script.words[i].name, Row(script, fs0, envs, i, j))]
  }

  /** The state before job (i, j). */
  ghost predicate Progress(script: Script, fs0: set<string>, envs: nat -> Env, st: State, i: int, j: int)
    requires 0 <= i < |script.words| && 0 <= j <= |script.models|
  {
    && !st.crashed
    && HasKey(st.results, script.words[i].name)
    && ResultsAt(script, fs0, envs, st.results, i, j)
    && FilesAt(script, fs0, envs, st.fs, i, j)
  }

  lemma {:induction false} TableKeys(script: Script, fs0: set<string>, envs: nat -> Env, i: int)
    requires Separated(script) && 0 <= i < |script.words|
    ensures !HasKey(Table(script, fs0, envs, i), script.words[i].name)
  {
    var t := Table(script, fs0, envs, i);
    assert forall k :: 0 <= k < |t| ==> t[k].0 == script.words[k].name;
  }

  lemma {:induction false} RowKeys(script: Script, fs0: set<string>, envs: nat -> Env, i: int, j: int)
    requires Separated(script) && 0 <= i < |script.words| && 0 <= j < |script.models|
    ensures !HasKey(Row(script, fs0, envs, i, j), script.models[j].name)
  {
    var r := Row(script, fs0, envs, i, j);
    assert forall k :: 0 <= k < |r| ==> r[k].0 == script.models[k].name;
  }

  /** Word i's dict is filled by one `results[word][model] = flag`
      assignment per model, in model order; with distinct model names no
      assignment overwrites another, so the dict built that way is the row
      itself, every model listed once. */
  lemma {:induction false} RowIsAssigned(script: Script, fs0: set<string>, envs: nat -> Env, i: int)
    requires Separated(script) && 0 <= i < |script.words|
    ensures var row := Row(script, fs0, envs, i, |script.models|);
      DistinctKeys(row) && FromPairs(row) == row
  {
    var row := Row(script, fs0, envs, i, |script.models|);
    assert forall k :: 0 <= k < |row| ==> row[k].0 == script.models[k].name;
    FromDistinctPairs(row);
  }

  /** The files after job (i, j). */
  lemma {:induction false} FilesStep(script: Script, fs0: set<string>, envs: nat -> Env, fs: set<string>, i: int, j: int, jr: JobResult)
    requires Separated(script) && 0 <= i < |script.words| && 0 <= j < |script.models|
    requires FilesAt(script, fs0, envs, fs, i, j)
    requires jr.outcome.Returned? && jr.outcome.success == Expected(script, fs0, envs, i, j)
    requires jr.outcome.success ==> FinalOf(script, i, j) in jr.fs
    requires jr.fs - {RawOf(script, i, j), FinalOf(script, i, j)} == fs - {RawOf(script, i, j), FinalOf(script, i, j)}
    ensures FilesAt(script, fs0, envs, jr.fs, i, j + 1)
  {
    var raw := RawOf(script, i, j);
    var final := FinalOf(script, i, j);
    forall i2, j2 | 0 <= i2 < |script.words| && 0 <= j2 < |script.models| && (i2 != i || j2 != j)
      ensures FinalOf(script, i2, j2) in jr.fs <==> FinalOf(script, i2, j2) in fs
    {
      var f := FinalOf(script, i2, j2);
      assert f != raw && f != final;
      assert f in jr.fs - {raw, final} <==> f in fs - {raw, final};
    }
  }

  /** The results dict after job (i, j) reported `ok`. */
  lemma {:induction false} ResultsStep(script: Script, fs0: set<string>, envs: nat -> Env, results: Summary, i: int, j: int, ok: bool)
    requires Separated(script) && 0 <= i < |script.words| && 0 <= j < |script.models|
    requires ResultsAt(script, fs0, envs, results, i, j) && HasKey(results, script.words[i].name)
    requires ok == Expected(script, fs0, envs, i, j)
    ensures var w := script.words[i].name;
      ResultsAt(script, fs0, envs, Put(results, w, Put(Get(results, w), script.models[j].name, ok)), i, j + 1)
  {
    var w := script.words[i].name;
    var table := Table(script, fs0, envs, i);
    var row := Row(script, fs0, envs, i, j);
    TableKeys(script, fs0, envs, i);
    RowKeys(script, fs0, envs, i, j);
    LastEntry(table, w, row, Row(script, fs0, envs, i, j + 1));
    assert row + [(script.models[j].name, ok)] == Row(script, fs0, envs, i, j + 1);
  }

  /** One step of the inner loop keeps the progress invariant. */
  lemma {:induction false} ModelStep(script: Script, fs0: set<string>, envs: nat -> Env, st: State, i: int, j: int)
    requires Separated(script) && !UnhandledIn(envs, 0, |script.words| * |script.models|)
    requires 0 <= i < |script.words| && 0 <= j < |script.models|
    requires Progress(script, fs0, envs, st, i, j)
    ensures var w := script.words[i];
      var m := script.models[j];
      var st' := Record(st, w, m, RunJob(script, w, m, st.fs, envs(i * |script.models| + j)));
      Progress(script, fs0, envs, st', i, j + 1) && st'.requests == st.requests + Sent(script, fs0, i, j)
  {
    var w := script.words[i];
    var m := script.models[j];
    var n := i * |script.models| + j;
    JobIndexInRange(i, j, |script.words|, |script.models|);
    assert !Unhandled(envs(n));
    var jr := RunJob(script, w, m, st.fs, envs(n));
    JobEffects(script.base, script.policy, m, w, st.fs, envs(n));
    assert !Before(i, j, i, j);
    var ok := Expected(script, fs0, envs, i, j);
    assert jr.outcome == Returned(ok);
    FilesStep(script, fs0, envs, st.fs, i, j, jr);
    ResultsStep(script, fs0, envs, st.results, i, j, ok);
    assert jr.request.Some? <==> FinalOf(script, i, j) !in fs0;
  }

  lemma {:induction false} ModelsSummary(script: Script, fs0: set<string>, envs: nat -> Env, st: State, i: int, j: nat, n: nat)
    requires Separated(script) && !UnhandledIn(envs, 0, |script.words| * |script.models|)
    requires 0 <= i < |script.words| && j <= |script.models| && n == i * |script.models| + j
    requires Progress(script, fs0, envs, st, i, j)
    ensures var r := RunModels(script, script.words[i], j, n, envs, st);
      Progress(script, fs0, envs, r, i, |script.models|) && r.requests == st.requests + SentFrom(script, fs0, i, j)
    decreases |script.models| - j
  {
    if j < |script.models| {
      var w := script.words[i];
      var m := script.models[j];
      var st' := Record(st, w, m, RunJob(script, w, m, st.fs, envs(n)));
      ModelStep(script, fs0, envs, st, i, j);
      ModelsStep(script, w, j, n, envs, st);
      ModelsSummary(script, fs0, envs, st', i, j + 1, n + 1);
      SentFromStep(script, fs0, i, j, st.requests, st'.requests);
    } else {
      ModelsStop(script, script.words[i], j, n, envs, st);
    }
  }

  /** The state before word i. */
  ghost predicate WordsDone(script: Script, fs0: set<string>, envs: nat -> Env, st: State, i: int)
    requires 0 <= i <= |script.words|
  {
    && !st.crashed
    && st.results == Table(script, fs0, envs, i)
    && FilesAt(script, fs0, envs, st.fs, i, 0)
  }

  /** `results[word_name] = {}` starts the inner loop's invariant. */
  lemma {:induction false} WordStart(script: Script, fs0: set<string>, envs: nat -> Env, st: State, i: int)
    requires Separated(script) && 0 <= i < |script.words|
    requires WordsDone(script, fs0, envs, st, i)
    ensures Progress(script, fs0, envs, st.(results := Put(st.results, script.words[i].name, [])), i, 0)
  {
    TableKeys(script, fs0, envs, i);
    assert Row(script, fs0, envs, i, 0) == [];
  }

  /** The end of the inner loop is the state before the next word. */
  lemma {:induction false} WordEnd(script: Script, fs0: set<string>, envs: nat -> Env, st: State, i: int)
    requires 0 <= i < |script.words|
    requires Progress(script, fs0, envs, st, i, |script.models|)
    ensures WordsDone(script, fs0, envs, st, i + 1)
  {
    var M := |script.models|;
    assert Table(script, fs0, envs, i) + [(script.words[i].name, Row(script, fs0, envs, i, M))] == Table(script, fs0, envs, i + 1);
    forall i2, j2 | 0 <= i2 < |script.words| && 0 <= j2 < M
      ensures Before(i2, j2, i, M) == Before(i2, j2, i + 1, 0)
    {
    }
  }

  lemma {:induction false} WordsSummary(script: Script, fs0: set<string>, envs: nat -> Env, st: State, i: int)
    requires Separated(script) && !UnhandledIn(envs, 0, |script.words| * |script.models|)
    requires 0 <= i <= |script.words|
    requires WordsDone(script, fs0, envs, st, i)
    ensures var r := RunWords(script, i, envs, st);
      WordsDone(script, fs0, envs, r, |script.words|) && r.requests == st.requests + SentWords(script, fs0, i)
    decreases |script.words| - i
  {
    if i < |script.words| {
      var w := script.words[i];
      var st0 := st.(results := Put(st.results, w.name, []));
      WordStart(script, fs0, envs, st, i);
      ModelsSummary(script, fs0, envs, st0, i, 0, i * |script.models|);
      var st' := RunModels(script, w, 0, i * |script.models|, envs, st0);
      WordEnd(script, fs0, envs, st', i);
      assert RunWords(script, i, envs, st) == RunWords(script, i + 1, envs, st');
      WordsSummary(script, fs0, envs, st', i + 1);
      SentWordsStep(script, fs0, i, st.requests, st'.requests);
    }
  }

  /** With distinct artifact paths and no job raising outside its handler, the
      program's results dict lists every word, in order, with every model,
      in order, flagged exactly when the final artifact already existed or
      every step of the job succeeded; every flagged job's final artifact
      exists when the program ends; and exactly one request is sent for
      every job whose final artifact was missing, in loop order. */
  lemma {:induction false} RunSummary(script: Script, fs: set<string>, envs: nat -> Env)
    requires Separated(script) && !UnhandledIn(envs, 0, |script.words| * |script.models|)
    ensures var r := Run(script, fs, envs);
      && !r.crashed
      && r.results == Table(script, fs, envs, |script.words|)
      && r.requests == SentWords(script, fs, 0)
      && (forall i, j :: 0 <= i < |script.words| && 0 <= j < |script.models| && r.results[i].1[j].1 ==>
            FinalOf(script, i, j) in r.fs)
  {
    var r := Run(script, fs, envs);
    assert Table(script, fs, envs, 0) == [];
    WordsSummary(script, fs, envs, State([], fs, [], false), 0);
    forall i, j | 0 <= i < |script.words| && 0 <= j < |script.models| && r.results[i].1[j].1
      ensures FinalOf(script, i, j) in r.fs
    {
      assert Before(i, j, |script.words|, 0);
    }
  }

  /** Every job's final artifact exists. */
  ghost predicate AllPresent(script: Script, fs: set<string>)
  {
    forall i, j :: 0 <= i < |script.words| && 0 <= j < |script.models| ==> FinalOf(script, i, j) in fs
  }

  /** A job whose final artifact exists changes nothing and sends nothing. */
  lemma {:induction false} RerunStep(script: Script, w: Word, m: Model, st: State, env: Env)
    requires !Unhandled(env) && FinalPath(script.base, w.name, m.name) in st.fs
    requires !st.crashed && st.requests == [] && HasKey(st.results, w.name)
    ensures var st' := Record(st, w, m, RunJob(script, w, m, st.fs, env));
      !st'.crashed && st'.fs == st.fs && st'.requests == [] && HasKey(st'.results, w.name)
  {
    JobEffects(script.base, script.policy, m, w, st.fs, env);
  }

  lemma {:induction false} RerunModels(script: Script, fs: set<string>, envs: nat -> Env, st: State, i: int, j: nat, n: nat)
    requires !UnhandledIn(envs, 0, |script.words| * |script.models|) && AllPresent(script, fs)
    requires 0 <= i < |script.words| && j <= |script.models| && n == i * |script.models| + j
    requires !st.crashed && st.fs == fs && st.requests == [] && HasKey(st.results, script.words[i].name)
    ensures var r := RunModels(script, script.words[i], j, n, envs, st);
      !r.crashed && r.fs == fs && r.requests == []
    decreases |script.models| - j
  {
    var w := script.words[i];
    if j < |script.models| {
      var m := script.models[j];
      JobIndexInRange(i, j, |script.words|, |script.models|);
      assert !Unhandled(envs(n));
      assert FinalOf(script, i, j) in fs;
      var st' := Record(st, w, m, RunJob(script, w, m, st.fs, envs(n)));
      RerunStep(script, w, m, st, envs(n));
      ModelsStep(script, w, j, n, envs, st);
      RerunModels(script, fs, envs, st', i, j + 1, n + 1);
    } else {
      ModelsStop(script, w, j, n, envs, st);
    }
  }

  lemma {:induction false} RerunWords(script: Script, fs: set<string>, envs: nat -> Env, st: State, i: nat)
    requires !UnhandledIn(envs, 0, |script.words| * |script.models|) && AllPresent(script, fs)
    requires i <= |script.words|
    requires !st.crashed && st.fs == fs && st.requests == []
    ensures var r := RunWords(script, i, envs, st);
      !r.crashed && r.fs == fs && r.requests == []
    decreases |script.words| - i
  {
    if i < |script.words| {
      var w := script.words[i];
      var st0 := st.(results := Put(st.results, w.name, []));
      var n := i * |script.models|;
      RerunModels(script, fs, envs, st0, i, 0, n);
      var st' := RunModels(script, w, 0, n, envs, st0);
      assert RunWords(script, i, envs, st) == RunWords(script, i + 1, envs, st');
      RerunWords(script, fs, envs, st', i + 1);
    }
  }

  /** Running a script again once every final artifact exists sends no
      request and changes no file; with distinct artifact paths every job
      is reported as a success. */
  lemma {:induction false} RerunIsNoOp(script: Script, fs: set<string>, envs: nat -> Env)
    requires !UnhandledIn(envs, 0, |script.words| * |script.models|) && AllPresent(script, fs)
    ensures var r := Run(script, fs, envs);
      !r.crashed && r.fs == fs && r.requests == []
    ensures Separated(script) ==>
      var r := Run(script, fs, envs);
      && r.results == Table(script, fs, envs, |script.words|)
      && forall i, j :: 0 <= i < |script.words| && 0 <= j < |script.models| ==>
           r.results[i].1[j] == (script.models[j].name, true)
  {
    RerunWords(script, fs, envs, State([], fs, [], false), 0);
    if Separated(script) {
      RunSummary(script, fs, envs);
    }
  }

  /** The results dict written out: one entry per word, in order, each
      with one flag per model, in order. */
  lemma {:induction false} ResultsShape(script: Script, fs: set<string>, envs: nat -> Env)
    requires Separated(script) && !UnhandledIn(envs, 0, |script.words| * |script.models|)
    ensures var r := Run(script, fs, envs);
      && !r.crashed
      && |r.results| == |script.words|
      && (forall i :: 0 <= i < |script.words| ==>
            r.results[i].0 == script.words[i].name && |r.results[i].1| == |script.models|)
      && (forall i, j :: 0 <= i < |script.words| && 0 <= j < |script.models| ==>
            r.results[i].1[j] == (script.models[j].name, Expected(script, fs, envs, i, j)))
  {
    RunSummary(script, fs, envs);
  }
}
